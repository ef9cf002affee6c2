/** Provisioning requests: pending, approved or rejected, with a growing retry delay, and a
    token from the auth service once approved. Clock readings and the auth service's answer
    are parameters of the steps. */
module Provisioning {
  import opened Text

  const ClientTypeService := "service"

  datatype Status = Status(
    clientID: string, clientType: string, pubKey: string, mac: string, pending: bool,
    approvedMSE: int, receivedMSE: int, rejectedMSE: int, retrySec: int)

  datatype Approval = Approval(clientID: string, clientType: string, pubKey: string, mac: string, at: int)
  datatype Request = Request(clientID: string, pubKey: string, mac: string)

  /** A call of AddService or AddDevice. */
  datatype AuthCall = AuthCall(service: bool, clientID: string, pubKey: string)

  type Requests = map<string, Status>

  // ----- the operations as functions

  function Approve(rs: Requests, client: string, clientType: string, now: int): Requests {
    if client !in rs then rs
    else rs[client := rs[client].(pending := false, clientType := clientType, approvedMSE := now, rejectedMSE := 0)]
  }

  function Reject(rs: Requests, client: string, now: int): Requests {
    if client !in rs then rs else rs[client := rs[client].(pending := false, rejectedMSE := now)]
  }

  function PreApprove(rs: Requests, approvals: seq<Approval>): Requests {
    if approvals == [] then rs
    else
      var before, a := PreApprove(rs, approvals[..|approvals| - 1]), approvals[|approvals| - 1];
      if a.clientID == "" then before
      else before[a.clientID := Status(a.clientID, a.clientType, a.pubKey, a.mac, false, a.at, 0, 0, 0)]
  }

  datatype Credentials = Credentials(pubKey: string, mac: string)

  /** A request brings a key, and meets the credentials as far as they are given. */
  predicate Meets(c: Credentials, q: Request) {
    (c.pubKey != "" ==> c.pubKey == q.pubKey) && (c.mac != "" ==> c.mac == q.mac) && q.pubKey != ""
  }

  function Stored(s: Status): Credentials {
    Credentials(s.pubKey, s.mac)
  }

  /** The call of the auth service that a request leads to, if any. */
  function CallFor(rs: Requests, q: Request): Option<AuthCall> {
    if q.clientID in rs && rs[q.clientID].approvedMSE != 0 && Meets(Stored(rs[q.clientID]), q) then
      var s := rs[q.clientID];
      Some(AuthCall(s.clientType == ClientTypeService, s.clientID, s.pubKey))
    else None
  }

  /** The status stored for a request; None if the request fails and nothing is stored. */
  function Submitted(rs: Requests, q: Request, now: int, authOk: bool): Option<Status> {
    if q.clientID !in rs then
      Some(Status(q.clientID, "", q.pubKey, q.mac, true, 0, now, 0, 60))
    else
      var s := rs[q.clientID].(receivedMSE := now);
      if s.approvedMSE != 0 then
        if Meets(Stored(s), q) && authOk then Some(s.(pending := false)) else None
      else if s.rejectedMSE != 0 then Some(s.(retrySec := 3600, pending := false))
      else Some(s.(pending := true, retrySec := if s.retrySec < 600 then s.retrySec + 30 else s.retrySec))
  }

  function Submit(rs: Requests, q: Request, now: int, authOk: bool): Requests {
    var s := Submitted(rs, q, now, authOk);
    if s.Some? then rs[q.clientID := s.value] else rs
  }

  predicate Wanted(s: Status, pending: bool, approved: bool, rejected: bool) {
    (s.pending && pending) || (s.approvedMSE != 0 && approved) || (s.rejectedMSE != 0 && rejected)
  }

  // ----- the service

  class ManageIdProvService {
    var requests: Requests
    /** The calls made so far. */
    var authCalls: seq<AuthCall>

    constructor ()
      ensures requests == map[] && authCalls == []
    {
      requests, authCalls := map[], [];
    }

    method ApproveRequest(client: string, clientType: string, now: int) returns (ok: bool)
      modifies this`requests
      ensures requests == Approve(old(requests), client, clientType, now)
      ensures ok <==> client in old(requests)
    {
      if client !in requests {
        return false;
      }
      var status := requests[client];
      status := status.(pending := false, clientType := clientType);
      status := status.(approvedMSE := now, rejectedMSE := 0);
      requests := requests[client := status];
      return true;
    }

    method RejectRequest(client: string, now: int) returns (ok: bool)
      modifies this`requests
      ensures requests == Reject(old(requests), client, now)
      ensures ok <==> client in old(requests)
    {
      if client !in requests {
        return false;
      }
      requests := requests[client := requests[client].(pending := false, rejectedMSE := now)];
      return true;
    }

    method PreApproveClients(approvals: seq<Approval>)
      modifies this`requests
      ensures requests == PreApprove(old(requests), approvals)
    {
      for i := 0 to |approvals|
        invariant requests == PreApprove(old(requests), approvals[..i])
      {
        var a := approvals[i];
        assert approvals[..i + 1][..i] == approvals[..i];
        if a.clientID != "" {
          requests := requests[a.clientID := Status(a.clientID, a.clientType, a.pubKey, a.mac, false, a.at, 0, 0, 0)];
        }
      }
      assert approvals[..|approvals|] == approvals;
    }

    method SubmitRequest(q: Request, now: int, authOk: bool) returns (status: Option<Status>, token: bool)
      modifies this
      ensures requests == Submit(old(requests), q, now, authOk)
      ensures status == Submitted(old(requests), q, now, authOk)
      ensures var call := CallFor(old(requests), q);
              && authCalls == (if call.Some? then old(authCalls) + [call.value] else old(authCalls))
              && (token <==> call.Some? && authOk)
    {
      token := false;
      var s: Status;
      if q.clientID !in requests {
        s := Status(q.clientID, "", q.pubKey, q.mac, true, 0, now, 0, 60);
      } else {
        s := requests[q.clientID].(receivedMSE := now);
        if s.approvedMSE != 0 {
          if s.pubKey != "" && s.pubKey != q.pubKey {
            return None, false;
          } else if s.mac != "" && s.mac != q.mac {
            return None, false;
          } else if q.pubKey == "" {
            return None, false;
          }
          s := s.(pending := false);
          authCalls := authCalls + [AuthCall(s.clientType == ClientTypeService, s.clientID, s.pubKey)];
          if !authOk {
            return None, false;
          }
          token := true;
        } else if s.rejectedMSE != 0 {
          s := s.(retrySec := 3600, pending := false);
        } else {
          s := s.(pending := true);
          if s.retrySec < 600 {
            s := s.(retrySec := s.retrySec + 30);
          }
        }
      }
      requests := requests[q.clientID := s];
      status := Some(s);
    }

    /** Every wanted record once, in no particular order. */
    method GetRequests(pending: bool, approved: bool, rejected: bool) returns (list: seq<Status>)
      requires Inv(requests)
      ensures forall s :: s in list <==>
                && s.clientID in requests && requests[s.clientID] == s
                && ((pending && s.pending) || (approved && s.approvedMSE != 0) || (rejected && s.rejectedMSE != 0))
      ensures forall i, j :: 0 <= i < j < |list| ==> list[i].clientID != list[j].clientID
      ensures pending && approved && rejected ==> forall k :: k in requests ==> requests[k] in list
    {
      list := [];
      var todo := requests.Keys;
      while todo != {}
        invariant todo <= requests.Keys
        invariant forall s :: s in list <==> s.clientID in requests.Keys - todo && requests[s.clientID] == s
                                             && Wanted(s, pending, approved, rejected)
        invariant forall i, j :: 0 <= i < j < |list| ==> list[i].clientID != list[j].clientID
        decreases todo
      {
        var k :| k in todo;
        var s := requests[k];
        if Wanted(s, pending, approved, rejected) {
          assert forall i :: 0 <= i < |list| ==> list[i] in list;
          list := list + [s];
        }
        todo := todo - {k};
      }
    }
  }

  // ----- the invariant

  ghost predicate RecordInv(k: string, s: Status) {
    && s.clientID == k
    && (s.pending ==> s.approvedMSE == 0 && s.rejectedMSE == 0)
    && (s.pending || s.approvedMSE != 0 || s.rejectedMSE != 0)
  }

  ghost predicate Inv(rs: Requests) {
    forall k :: k in rs ==> RecordInv(k, rs[k])
  }

  // ----- runs

  datatype Step =
    | ApproveStep(client: string, clientType: string, now: int)
    | RejectStep(client: string, now: int)
    | PreApproveStep(approvals: seq<Approval>)
    | SubmitStep(request: Request, now: int, authOk: bool)

  /** The clock is positive. */
  predicate Timely(step: Step) {
    match step
    case ApproveStep(_, _, now) => now > 0
    case RejectStep(_, now) => now > 0
    case PreApproveStep(approvals) => forall i :: 0 <= i < |approvals| ==> approvals[i].at > 0
    case SubmitStep(_, now, _) => now > 0
  }

  function Apply(rs: Requests, step: Step): Requests {
    match step
    case ApproveStep(client, clientType, now) => Approve(rs, client, clientType, now)
    case RejectStep(client, now) => Reject(rs, client, now)
    case PreApproveStep(approvals) => PreApprove(rs, approvals)
    case SubmitStep(q, now, authOk) => Submit(rs, q, now, authOk)
  }

  /** The requests after a run of the service from its start. */
  function After(steps: seq<Step>): Requests {
    if steps == [] then map[] else Apply(After(steps[..|steps| - 1]), steps[|steps| - 1])
  }

  ghost predicate AllTimely(steps: seq<Step>) {
    forall i :: 0 <= i < |steps| ==> Timely(steps[i])
  }

  // ----- what the history of a client says

  /** The last approval of the client in a list; approvals without a client ID are ignored. */
  function LastApproval(approvals: seq<Approval>, client: string): (a: Option<Approval>)
    ensures a.Some? <==> client != "" && exists i :: 0 <= i < |approvals| && approvals[i].clientID == client
    ensures a.Some? ==> exists i :: 0 <= i < |approvals| && approvals[i] == a.value && a.value.clientID == client
                                    && forall j :: i < j < |approvals| ==> approvals[j].clientID != client
  {
    if client == "" || approvals == [] then None
    else
      var last := approvals[|approvals| - 1];
      if last.clientID == client then Some(last)
      else
        var before := approvals[..|approvals| - 1];
        assert forall i :: 0 <= i < |before| ==> before[i] == approvals[i];
        LastApproval(before, client)
  }

  predicate PreApproves(approvals: seq<Approval>, client: string) {
    LastApproval(approvals, client).Some?
  }

  /** The client has submitted or was pre-approved. */
  predicate Known(steps: seq<Step>, client: string) {
    steps != [] &&
    var before, last := steps[..|steps| - 1], steps[|steps| - 1];
    || Known(before, client)
    || (last.SubmitStep? && last.request.clientID == client)
    || (last.PreApproveStep? && PreApproves(last.approvals, client))
  }

  /** The client was pre-approved, or approved when it was known. */
  predicate Approved(steps: seq<Step>, client: string) {
    steps != [] &&
    var before, last := steps[..|steps| - 1], steps[|steps| - 1];
    || Approved(before, client)
    || (last.ApproveStep? && last.client == client && Known(before, client))
    || (last.PreApproveStep? && PreApproves(last.approvals, client))
  }

  /** How often the client has submitted. */
  function Submissions(steps: seq<Step>, client: string): nat {
    if steps == [] then 0
    else
      var last := steps[|steps| - 1];
      Submissions(steps[..|steps| - 1], client)
      + if last.SubmitStep? && last.request.clientID == client then 1 else 0
  }

  /** The credentials on file for the client: those of its latest pre-approval, or else those of
      its first submission. */
  function OnFile(steps: seq<Step>, client: string): Option<Credentials> {
    if steps == [] then None
    else
      var before, last := OnFile(steps[..|steps| - 1], client), steps[|steps| - 1];
      if last.PreApproveStep? && PreApproves(last.approvals, client) then
        var a := LastApproval(last.approvals, client).value;
        Some(Credentials(a.pubKey, a.mac))
      else if last.SubmitStep? && last.request.clientID == client && before.None? then
        Some(Credentials(last.request.pubKey, last.request.mac))
      else before
  }

  /** The type the client was last given, by a pre-approval or by an approval when it was known. */
  function GivenType(steps: seq<Step>, client: string): string {
    if steps == [] then ""
    else
      var before, last := steps[..|steps| - 1], steps[|steps| - 1];
      if last.PreApproveStep? && PreApproves(last.approvals, client) then
        LastApproval(last.approvals, client).value.clientType
      else if last.ApproveStep? && last.client == client && Known(before, client) then last.clientType
      else GivenType(before, client)
  }

  /** The request brings a key, and agrees with the credentials as far as they are given. */
  predicate Fits(file: Option<Credentials>, q: Request) {
    file.Some? && q.pubKey != "" && file.value.pubKey in {"", q.pubKey} && file.value.mac in {"", q.mac}
  }

  /** When the client was last approved or pre-approved; 0 if never. */
  function ApprovedAt(steps: seq<Step>, client: string): int {
    if steps == [] then 0
    else
      var before, last := steps[..|steps| - 1], steps[|steps| - 1];
      if last.ApproveStep? && last.client == client && Known(before, client) then last.now
      else if last.PreApproveStep? && PreApproves(last.approvals, client) then LastApproval(last.approvals, client).value.at
      else ApprovedAt(before, client)
  }

  /** When the client was last rejected, if that was after its last approval; else 0. */
  function RejectedAt(steps: seq<Step>, client: string): int {
    if steps == [] then 0
    else
      var before, last := steps[..|steps| - 1], steps[|steps| - 1];
      if last.RejectStep? && last.client == client && Known(before, client) then last.now
      else if last.ApproveStep? && last.client == client then 0
      else if last.PreApproveStep? && PreApproves(last.approvals, client) then 0
      else RejectedAt(before, client)
  }

  /** When the last submission was received that did not fail, unless a pre-approval came after it.
      A submission fails if the client is approved and the request does not fit or the auth service
      refuses. */
  function ReceivedAt(steps: seq<Step>, client: string): int {
    if steps == [] then 0
    else
      var before, last := steps[..|steps| - 1], steps[|steps| - 1];
      if last.SubmitStep? && last.request.clientID == client
         && (!Approved(before, client) || (Fits(OnFile(before, client), last.request) && last.authOk)) then last.now
      else if last.PreApproveStep? && PreApproves(last.approvals, client) then 0
      else ReceivedAt(before, client)
  }

  /** Some submission came while the client was rejected. */
  predicate TurnedDown(steps: seq<Step>, client: string) {
    steps != [] &&
    var before, last := steps[..|steps| - 1], steps[|steps| - 1];
    TurnedDown(before, client) || (last.SubmitStep? && last.request.clientID == client && RejectedAt(before, client) != 0)
  }

  function Min(a: int, b: int): int {
    if a < b then a else b
  }

  function RetryAfter(k: int): int {
    Min(60 + 30 * (k - 1), 600)
  }

  /** What pre-approval leaves of one client: a fresh record of the last approval, or what was
      there. */
  lemma {:induction false} PreApproveMeaning(rs: Requests, approvals: seq<Approval>, client: string)
    ensures var r, a := PreApprove(rs, approvals), LastApproval(approvals, client);
            if a.Some? then
              && client in r
              && r[client] == Status(client, a.value.clientType, a.value.pubKey, a.value.mac, false, a.value.at, 0, 0, 0)
            else (client in r <==> client in rs) && (client in rs ==> r[client] == rs[client])
    decreases |approvals|
  {
    if approvals == [] {
    } else {
      PreApproveMeaning(rs, approvals[..|approvals| - 1], client);
    }
  }

  /** The record of a client and what the run says of it: who it is, what was decided, and when. */
  ghost predicate Decided(steps: seq<Step>, client: string) {
    var rs := After(steps);
    && (client in rs <==> Known(steps, client))
    && (ApprovedAt(steps, client) != 0 <==> Approved(steps, client))
    && (client !in rs ==>
          ApprovedAt(steps, client) == 0 == RejectedAt(steps, client) && OnFile(steps, client) == None && GivenType(steps, client) == "")
    && (client in rs ==>
          && rs[client].clientID == client && rs[client].clientType == GivenType(steps, client)
          && OnFile(steps, client) == Some(Credentials(rs[client].pubKey, rs[client].mac))
          && rs[client].approvedMSE == ApprovedAt(steps, client) && rs[client].rejectedMSE == RejectedAt(steps, client)
          && (rs[client].pending <==> ApprovedAt(steps, client) == 0 && RejectedAt(steps, client) == 0))
  }

  lemma {:induction false} RunDecides(steps: seq<Step>, client: string)
    requires AllTimely(steps)
    ensures Decided(steps, client)
  {
    if steps == [] {
    } else {
      var before, last := steps[..|steps| - 1], steps[|steps| - 1];
      RunDecides(before, client);
      if last.PreApproveStep? {
        PreApproveMeaning(After(before), last.approvals, client);
      }
    }
  }

  /** When a submission was last received, and how long the client was told to wait. */
  ghost predicate Answered(steps: seq<Step>, client: string) {
    var rs := After(steps);
    && (client in rs ==> rs[client].receivedMSE == ReceivedAt(steps, client))
    && (client in rs && !Approved(steps, client) ==>
          && rs[client].retrySec == (if TurnedDown(steps, client) then 3600 else RetryAfter(Submissions(steps, client)))
          && Submissions(steps, client) >= 1 && (TurnedDown(steps, client) ==> RejectedAt(steps, client) != 0))
    && (client !in rs ==> ReceivedAt(steps, client) == 0 == Submissions(steps, client) && !TurnedDown(steps, client))
  }

  lemma {:induction false} RunAnswers(steps: seq<Step>, client: string)
    requires AllTimely(steps)
    ensures Answered(steps, client)
  {
    if steps == [] {
    } else {
      var before, last := steps[..|steps| - 1], steps[|steps| - 1];
      RunAnswers(before, client);
      RunDecides(before, client);
      if last.PreApproveStep? {
        PreApproveMeaning(After(before), last.approvals, client);
      }
    }
  }

  /** Over every run with a positive clock, the record of a client is what the run says. It exists
      if and only if the client submitted or was pre-approved. It holds the credentials on file, the
      type last given, and the times of the last approval, of the last rejection since then and of
      the last submission received. It is pending if and only if neither decision stands. Until it
      is approved, the client is told to wait min(60+30(k-1), 600) seconds after its k-th submission,
      or an hour once it submitted while rejected. */
  lemma {:induction false} RunHistory(steps: seq<Step>, client: string)
    requires AllTimely(steps)
    ensures Decided(steps, client) && Answered(steps, client)
    ensures client in After(steps) ==> RecordInv(client, After(steps)[client])
  {
    RunDecides(steps, client);
    RunAnswers(steps, client);
  }

  lemma {:induction false} RunKeepsInv(steps: seq<Step>)
    requires AllTimely(steps)
    ensures Inv(After(steps))
  {
    forall k | k in After(steps) ensures RecordInv(k, After(steps)[k]) {
      RunHistory(steps, k);
    }
  }

  /** Approval never reverts, not even by a later rejection. */
  lemma {:induction false} ApprovalStays(steps: seq<Step>, more: seq<Step>, client: string)
    requires AllTimely(steps + more) && Approved(steps, client)
    ensures client in After(steps + more) && After(steps + more)[client].approvedMSE != 0
  {
    ApprovedStays(steps, more, client);
    RunHistory(steps + more, client);
  }

  lemma {:induction false} ApprovedStays(steps: seq<Step>, more: seq<Step>, client: string)
    requires Approved(steps, client)
    ensures Approved(steps + more, client)
    decreases |more|
  {
    if more == [] {
      assert steps + more == steps;
    } else {
      var rest := more[..|more| - 1];
      ApprovedStays(steps, rest, client);
      assert (steps + more)[..|steps + more| - 1] == steps + rest;
    }
  }

  /** The auth service is called only for a client approved earlier in the run, with the stored
      key. That is the submitted key if and only if a key was stored: an approval without a key
      registers the client with an empty one. */
  lemma {:induction false} AuthCallsAreApproved(steps: seq<Step>, q: Request)
    requires AllTimely(steps) && CallFor(After(steps), q).Some?
    ensures Approved(steps, q.clientID)
    ensures var call, stored := CallFor(After(steps), q).value, After(steps)[q.clientID];
            && call.clientID == q.clientID && call.pubKey == stored.pubKey
            && (call.service <==> stored.clientType == ClientTypeService)
            && (call.pubKey == q.pubKey <==> stored.pubKey != "")
  {
    RunHistory(steps, q.clientID);
  }

  /** Exactly who gets a token, from the history alone: a client ever approved whose request meets
      the credentials on file; whether it was rejected since does not matter. The auth service is
      given the key on file and the type last given. */
  lemma {:induction false} TokenExactly(steps: seq<Step>, q: Request, now: int, authOk: bool)
    requires AllTimely(steps)
    ensures Approved(steps, q.clientID) ==> OnFile(steps, q.clientID).Some?
    ensures CallFor(After(steps), q)
         == if Approved(steps, q.clientID) && Fits(OnFile(steps, q.clientID), q) then
              Some(AuthCall(GivenType(steps, q.clientID) == "service", q.clientID,
                            OnFile(steps, q.clientID).value.pubKey))
            else None
    ensures Submitted(After(steps), q, now, authOk).None?
       <==> Approved(steps, q.clientID) && !(Fits(OnFile(steps, q.clientID), q) && authOk)
  {
    RunDecides(steps, q.clientID);
  }

  /** A run that registers an empty key: the pre-approval holds none, the request brings one. */
  lemma {:induction false} EmptyKeyIsRegistered(client: string, clientType: string, key: string, mac: string)
    requires client != "" && key != ""
    ensures var steps := [PreApproveStep([Approval(client, clientType, "", mac, 1)])];
            CallFor(After(steps), Request(client, key, mac))
            == Some(AuthCall(clientType == ClientTypeService, client, ""))
  {
    var a := Approval(client, clientType, "", mac, 1);
    assert [PreApproveStep([a])][..0] == [] && [a][..0] == [];
    assert PreApprove(map[], [a]) == map[client := Status(client, clientType, "", mac, false, 1, 0, 0, 0)];
  }

  /** A rejection after the approval does not stop the token. */
  lemma {:induction false} RejectedAfterApprovalGetsToken(client: string, key: string, clientType: string)
    requires key != ""
    ensures var q := Request(client, key, "");
            var steps := [SubmitStep(q, 1, true), ApproveStep(client, clientType, 2), RejectStep(client, 3)];
            client in After(steps) && After(steps)[client].rejectedMSE != 0 && CallFor(After(steps), q).Some?
  {
    var q := Request(client, key, "");
    var s1, s2, s3 := SubmitStep(q, 1, true), ApproveStep(client, clientType, 2), RejectStep(client, 3);
    assert [s1, s2, s3][..2] == [s1, s2] && [s1, s2][..1] == [s1] && [s1][..0] == [];
    assert After([s1]) == map[client := Status(client, "", key, "", true, 0, 1, 0, 60)];
    assert After([s1, s2])[client] == Status(client, clientType, key, "", false, 2, 1, 0, 60);
  }
}
