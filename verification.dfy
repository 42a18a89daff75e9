/**
 * Participation verification (`SocialVerifier`): one check record per
 * requirement of the giveaway, reduced to approved or rejected, where only
 * requirements marked `required` can block approval.
 *
 * The social network is reached through an adapter of three operations; an
 * operation that throws is a `Failure`, which aborts the whole verification.
 */
module Verification {
  import opened Wrappers
  import opened Domain
  import Text
  import Meta

  /** `NetworkAdapter`: follow, like and comment queries about one participant. */
  datatype Adapter = Adapter(
    verifyFollow: (Id, string, Giveaway) -> Result<bool, string>,
    verifyLike: (Id, string, Giveaway) -> Result<bool, string>,
    verifyComment: (Id, string, Giveaway) -> Result<Meta.CommentCheck, string>)

  datatype Reason = MissingProfile | NotFollowing | NoLike | NoComment | NeedsMentions(min: int)

  function ReasonText(r: Reason): string {
    match r
    case MissingProfile => "Missing profileToFollow"
    case NotFollowing => "Not following"
    case NoLike => "No like"
    case NoComment => "No comment"
    case NeedsMentions(min) => "Needs " + Text.IntToDecimal(min) + " mentions"
  }

  /** `VerificationDetail`: the outcome of one requirement, with a reason when it failed. */
  datatype Detail = Detail(rtype: RequirementType, ok: bool, reason: Option<Reason>)

  datatype VerificationResult = VerificationResult(status: VerificationStatus, checked: seq<Detail>)

  datatype VerifyError = ParticipationNotFound | Forbidden | AdapterError(message: string)

  /** The status code the error carries to the route handler. */
  function ErrorStatus(e: VerifyError): nat {
    match e
    case ParticipationNotFound => 404
    case Forbidden => 403
    case AdapterError(_) => 500
  }

  /** A participation as loaded with its giveaway and the giveaway's requirements. */
  datatype ParticipationRow = ParticipationRow(participation: Participation, giveaway: Giveaway, requirements: seq<Requirement>)

  // ---------------------------------------------------------------------
  // The adapters
  // ---------------------------------------------------------------------

  /**
   * `getMockAdapter` under `MOCK_VERIFICATION = mode`: "fail" fails every
   * check, "pass" passes them with two mentions, anything else passes them
   * with one mention. It never throws.
   */
  function MockAdapter(mode: string): (a: Adapter)
    ensures forall u, p, g :: a.verifyFollow(u, p, g) == Success(mode != "fail")
    ensures forall u, p, g :: a.verifyLike(u, p, g) == Success(mode != "fail")
    ensures forall u, p, g :: a.verifyComment(u, p, g)
              == Success(if mode == "fail" then Meta.CommentCheck(false, None)
                         else if mode == "pass" then Meta.CommentCheck(true, Some(2))
                         else Meta.CommentCheck(true, Some(1)))
  {
    var failAll := mode == "fail";
    var passAll := mode == "pass";
    Adapter(
      (u: Id, p: string, g: Giveaway) => if failAll then Success(false) else if passAll then Success(true) else Success(true),
      (u: Id, p: string, g: Giveaway) => if failAll then Success(false) else if passAll then Success(true) else Success(true),
      (u: Id, p: string, g: Giveaway) =>
        if failAll then Success(Meta.CommentCheck(false, None))
        else if passAll then Success(Meta.CommentCheck(true, Some(2)))
        else Success(Meta.CommentCheck(true, Some(1))))
  }

  /** The production bridge: follows are not verified yet, likes and comments go to `MetaAdapter`. */
  function MetaBridge(env: Meta.MetaEnv): Adapter {
    Adapter(
      (u: Id, p: string, g: Giveaway) => Success(false),
      (u: Id, p: string, g: Giveaway) => Success(Meta.VerifyLike(g)),
      (u: Id, p: string, g: Giveaway) => Meta.CommentOutcome(env, u, p, g))
  }

  /** `MOCK_VERIFICATION` is set to a non-empty value. */
  predicate UsesMock(mockVerification: Option<string>) {
    Truthy(mockVerification)
  }

  // ---------------------------------------------------------------------
  // The per-requirement checks and the decision
  // ---------------------------------------------------------------------

  /** One iteration of the requirement loop. */
  function CheckRequirement(a: Adapter, req: Requirement, userId: Id, g: Giveaway): (r: Result<Detail, string>)
    ensures r.Success? ==> r.value.rtype == req.rtype
    ensures r.Success? ==> (r.value.reason.None? <==> r.value.ok)
    ensures req.rtype == Follow && !Truthy(req.profileToFollow) ==> r == Success(Detail(Follow, false, Some(MissingProfile)))
    ensures req.rtype == Follow && Truthy(req.profileToFollow) ==>
              match a.verifyFollow(userId, req.profileToFollow.value, g)
              case Failure(e) => r == Failure(e)
              case Success(ok) => r == Success(Detail(Follow, ok, if ok then None else Some(NotFollowing)))
    ensures req.rtype == Like ==>
              match a.verifyLike(userId, g.postUrl, g)
              case Failure(e) => r == Failure(e)
              case Success(ok) => r == Success(Detail(Like, ok, if ok then None else Some(NoLike)))
    ensures req.rtype == Comment ==>
              match a.verifyComment(userId, g.postUrl, g)
              case Failure(e) => r == Failure(e)
              case Success(c) => r == Success(Detail(Comment, c.ok, if c.ok then None else Some(NoComment)))
    ensures req.rtype == Mentions ==>
              var min := req.mentionsCount.GetOr(1);
              match a.verifyComment(userId, g.postUrl, g)
              case Failure(e) => r == Failure(e)
              case Success(c) =>
                r.Success? && r.value.ok == (c.ok && c.mentions.GetOr(0) >= min)
                && (!r.value.ok ==> r.value.reason == Some(NeedsMentions(min)))
  {
    match req.rtype
    case Follow =>
      if !Truthy(req.profileToFollow) then Success(Detail(Follow, false, Some(MissingProfile)))
      else
        var ok :- a.verifyFollow(userId, req.profileToFollow.value, g);
        Success(Detail(Follow, ok, if ok then None else Some(NotFollowing)))
    case Like =>
      var ok :- a.verifyLike(userId, g.postUrl, g);
      Success(Detail(Like, ok, if ok then None else Some(NoLike)))
    case Comment =>
      var c :- a.verifyComment(userId, g.postUrl, g);
      Success(Detail(Comment, c.ok, if c.ok then None else Some(NoComment)))
    case Mentions =>
      var min := req.mentionsCount.GetOr(1);
      var c :- a.verifyComment(userId, g.postUrl, g);
      var okMentions := c.ok && c.mentions.GetOr(0) >= min;
      Success(Detail(Mentions, okMentions, if okMentions then None else Some(NeedsMentions(min))))
  }

  /**
   * The loop over the requirements in order: the records of every check, or
   * the failure of the first check that threw.
   */
  function CheckAll(a: Adapter, reqs: seq<Requirement>, userId: Id, g: Giveaway): (r: Result<seq<Detail>, string>)
    ensures r.Success? ==> |r.value| == |reqs|
    ensures r.Success? ==> forall i :: 0 <= i < |reqs| ==> CheckRequirement(a, reqs[i], userId, g) == Success(r.value[i])
    ensures r.Success? <==> forall i :: 0 <= i < |reqs| ==> CheckRequirement(a, reqs[i], userId, g).Success?
  {
    if reqs == [] then Success([])
    else
      var init := reqs[..|reqs| - 1];
      assert forall i :: 0 <= i < |init| ==> init[i] == reqs[i];
      match CheckAll(a, init, userId, g)
      case Failure(e) => Failure(e)
      case Success(done) =>
        match CheckRequirement(a, reqs[|reqs| - 1], userId, g)
        case Failure(e) => Failure(e)
        case Success(d) => Success(done + [d])
  }

  /** Once a prefix of the requirements has thrown, the whole loop has thrown the same error. */
  lemma {:induction false} CheckAllPrefixFailure(a: Adapter, reqs: seq<Requirement>, n: nat, userId: Id, g: Giveaway)
    requires n <= |reqs|
    requires CheckAll(a, reqs[..n], userId, g).Failure?
    ensures CheckAll(a, reqs, userId, g) == CheckAll(a, reqs[..n], userId, g)
    decreases |reqs| - n
  {
    if n < |reqs| {
      assert reqs[..n + 1][..n] == reqs[..n];
      CheckAllPrefixFailure(a, reqs, n + 1, userId, g);
    } else {
      assert reqs[..n] == reqs;
    }
  }

  /** `requirements.every((req, idx) => !req.required || checked[idx]?.ok === true)`. */
  predicate AllRequiredOk(reqs: seq<Requirement>, checked: seq<Detail>) {
    forall idx :: 0 <= idx < |reqs| ==> !reqs[idx].required || (idx < |checked| && checked[idx].ok)
  }

  /** `verifyParticipation` as a value. */
  function Verify(a: Adapter, rows: map<Id, ParticipationRow>, participationId: Id, userId: Id): Result<VerificationResult, VerifyError> {
    if participationId !in rows then Failure(ParticipationNotFound)
    else
      var row := rows[participationId];
      if row.participation.userId != userId then Failure(Forbidden)
      else if |row.requirements| == 0 then Success(VerificationResult(Approved, []))
      else match CheckAll(a, row.requirements, userId, row.giveaway)
        case Failure(e) => Failure(AdapterError(e))
        case Success(checked) =>
          Success(VerificationResult(if AllRequiredOk(row.requirements, checked) then Approved else Rejected, checked))
  }

  class SocialVerifier {
    const adapter: Adapter

    /** An injected adapter wins; otherwise the mock when `MOCK_VERIFICATION` is set, else the Meta bridge. */
    constructor (given: Option<Adapter>, mockVerification: Option<string>, meta: Meta.MetaEnv)
      ensures given.Some? ==> adapter == given.value
      ensures given.None? && UsesMock(mockVerification) ==> adapter == MockAdapter(mockVerification.value)
      ensures given.None? && !UsesMock(mockVerification) ==> adapter == MetaBridge(meta)
    {
      if given.Some? {
        adapter := given.value;
      } else if UsesMock(mockVerification) {
        adapter := MockAdapter(mockVerification.value);
      } else {
        adapter := MetaBridge(meta);
      }
    }

    method VerifyParticipation(rows: map<Id, ParticipationRow>, participationId: Id, userId: Id)
      returns (r: Result<VerificationResult, VerifyError>)
      ensures r == Verify(adapter, rows, participationId, userId)
    {
      if participationId !in rows {
        return Failure(ParticipationNotFound);
      }
      var row := rows[participationId];
      if row.participation.userId != userId {
        return Failure(Forbidden);
      }
      var giveaway := row.giveaway;
      var requirements := row.requirements;
      if |requirements| == 0 {
        return Success(VerificationResult(Approved, []));
      }
      var checked: seq<Detail> := [];
      for i := 0 to |requirements|
        invariant CheckAll(adapter, requirements[..i], userId, giveaway) == Success(checked)
      {
        assert requirements[..i + 1][..i] == requirements[..i];
        var detail := CheckRequirement(adapter, requirements[i], userId, giveaway);
        if detail.Failure? {
          CheckAllPrefixFailure(adapter, requirements, i + 1, userId, giveaway);
          return Failure(AdapterError(detail.error));
        }
        checked := checked + [detail.value];
      }
      assert requirements[..|requirements|] == requirements;
      var allRequiredOk := AllRequiredOk(requirements, checked);
      r := Success(VerificationResult(if allRequiredOk then Approved else Rejected, checked));
    }
  }

  // ---------------------------------------------------------------------
  // Properties of the decision
  // ---------------------------------------------------------------------

  /** A missing participation is a 404 and another user's a 403, whatever the adapter would answer. */
  lemma GuardsPrecedeAdapter(a: Adapter, b: Adapter, rows: map<Id, ParticipationRow>, participationId: Id, userId: Id)
    requires participationId !in rows || rows[participationId].participation.userId != userId
    ensures Verify(a, rows, participationId, userId) == Verify(b, rows, participationId, userId)
    ensures Verify(a, rows, participationId, userId)
            == Failure(if participationId !in rows then ParticipationNotFound else Forbidden)
  {
  }

  /** Without requirements the participation is approved with no records. */
  lemma NoRequirementsApproves(a: Adapter, rows: map<Id, ParticipationRow>, participationId: Id, userId: Id)
    requires participationId in rows && rows[participationId].participation.userId == userId
    requires rows[participationId].requirements == []
    ensures Verify(a, rows, participationId, userId) == Success(VerificationResult(Approved, []))
  {
  }

  /**
   * One record per requirement, in order and of the same type; the status is
   * approved exactly when every required requirement's record is ok, and it
   * is never pending.
   */
  lemma VerifiedRecordsAndStatus(a: Adapter, rows: map<Id, ParticipationRow>, participationId: Id, userId: Id)
    requires Verify(a, rows, participationId, userId).Success?
    ensures participationId in rows
    ensures var reqs := rows[participationId].requirements;
            var res := Verify(a, rows, participationId, userId).value;
            |res.checked| == |reqs|
            && (forall i :: 0 <= i < |reqs| ==> res.checked[i].rtype == reqs[i].rtype)
            && (res.status == Approved <==> forall i :: 0 <= i < |reqs| && reqs[i].required ==> res.checked[i].ok)
            && res.status != Pending
  {
  }

  /** Changing the outcome of a requirement that is not required never changes the decision. */
  lemma OptionalOutcomeIrrelevant(reqs: seq<Requirement>, checked: seq<Detail>, j: nat, flipped: Detail)
    requires |checked| == |reqs| && j < |reqs| && !reqs[j].required
    ensures AllRequiredOk(reqs, checked[j := flipped]) == AllRequiredOk(reqs, checked)
  {
  }

  /**
   * Two adapters that agree on every required requirement's outcome lead to
   * the same status, however they differ on the optional ones.
   */
  lemma StatusDependsOnlyOnRequired(a: Adapter, b: Adapter, rows: map<Id, ParticipationRow>, participationId: Id, userId: Id)
    requires Verify(a, rows, participationId, userId).Success? && Verify(b, rows, participationId, userId).Success?
    requires participationId in rows
    requires var reqs := rows[participationId].requirements;
             var ra := Verify(a, rows, participationId, userId).value;
             var rb := Verify(b, rows, participationId, userId).value;
             |ra.checked| == |rb.checked| == |reqs|
             && forall i :: 0 <= i < |reqs| && reqs[i].required ==> ra.checked[i].ok == rb.checked[i].ok
    ensures Verify(a, rows, participationId, userId).value.status == Verify(b, rows, participationId, userId).value.status
  {
  }

  /** A requirement the "pass" mock satisfies: a follow with a profile, a mention threshold of at most two. */
  predicate PassableByMock(req: Requirement) {
    (req.rtype == Follow ==> Truthy(req.profileToFollow))
    && (req.rtype == Mentions ==> req.mentionsCount.GetOr(1) <= 2)
  }

  /** Under `MOCK_VERIFICATION=pass` every requirement the mock can satisfy passes, so the entry is approved. */
  lemma MockPassApproves(rows: map<Id, ParticipationRow>, participationId: Id, userId: Id)
    requires participationId in rows && rows[participationId].participation.userId == userId
    requires forall i :: 0 <= i < |rows[participationId].requirements| ==> PassableByMock(rows[participationId].requirements[i])
    ensures Verify(MockAdapter("pass"), rows, participationId, userId).Success?
    ensures Verify(MockAdapter("pass"), rows, participationId, userId).value.status == Approved
    ensures forall d :: d in Verify(MockAdapter("pass"), rows, participationId, userId).value.checked ==> d.ok
  {
    var a := MockAdapter("pass");
    var row := rows[participationId];
    forall i | 0 <= i < |row.requirements|
      ensures CheckRequirement(a, row.requirements[i], userId, row.giveaway).Success?
      ensures CheckRequirement(a, row.requirements[i], userId, row.giveaway).value.ok
    {
      assert PassableByMock(row.requirements[i]);
    }
  }

  /** Under `MOCK_VERIFICATION=fail` every record fails, so any required requirement rejects the entry. */
  lemma MockFailRejects(rows: map<Id, ParticipationRow>, participationId: Id, userId: Id)
    requires participationId in rows && rows[participationId].participation.userId == userId
    requires exists i :: 0 <= i < |rows[participationId].requirements| && rows[participationId].requirements[i].required
    ensures Verify(MockAdapter("fail"), rows, participationId, userId).Success?
    ensures Verify(MockAdapter("fail"), rows, participationId, userId).value.status == Rejected
    ensures forall d :: d in Verify(MockAdapter("fail"), rows, participationId, userId).value.checked ==> !d.ok
  {
    var a := MockAdapter("fail");
    var row := rows[participationId];
    forall i | 0 <= i < |row.requirements|
      ensures CheckRequirement(a, row.requirements[i], userId, row.giveaway).Success?
      ensures !CheckRequirement(a, row.requirements[i], userId, row.giveaway).value.ok
    {
    }
  }

  /** The production bridge never approves a follow or a like requirement. */
  lemma MetaBridgeFailsFollowAndLike(env: Meta.MetaEnv, req: Requirement, userId: Id, g: Giveaway)
    requires req.rtype == Follow || req.rtype == Like
    ensures CheckRequirement(MetaBridge(env), req, userId, g).Success?
    ensures !CheckRequirement(MetaBridge(env), req, userId, g).value.ok
  {
  }
}
