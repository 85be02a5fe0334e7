/** Which releases the protocol can reach, which it cannot, and where it gets stuck. */
module ReleaseReachability {
  import opened Wrappers
  import opened Assurance
  import opened ReleaseProtocol
  import opened ReleaseSafety

  // ---------------------------------------------------------------------------------------------
  // Reachability
  // ---------------------------------------------------------------------------------------------

  const REQUIREMENTS: string := "REQUIREMENTS"

  predicate RequirementsBlocked(checks: seq<Check>) {
    exists i :: 0 <= i < |checks| && checks[i].checkType == REQUIREMENTS
                && LatestOfType(checks, i) && Blocking(checks[i])
  }

  predicate Unreleased(c: Case) {
    && RequirementsBlocked(c.checks)
    && c.status !in {ReleasePendingApproval, ReleaseAuthorized, Dispatched, Closed}
    && forall d :: d in c.decisions ==> d.kind != Authorize
  }

  lemma UnreleasedStep(hash: Hasher, c: Case, a: Action)
    requires Unreleased(c)
    requires a.RewriteEvidence? ==> RequirementsBlocked(a.checks)
    ensures Unreleased(Apply(hash, c, a).0)
  {
    match a
    case DecideRelease(kind, actor, policyPublished) =>
      NoBlockingCheck(c.checks);
    case ApproveRelease(i, actor) =>
    case SaveTrustedReference(contentHash, findings) =>
      var c' := Apply(hash, c, a).0;
      var i :| 0 <= i < |c.checks| && c.checks[i].checkType == REQUIREMENTS
               && LatestOfType(c.checks, i) && Blocking(c.checks[i]);
      assert c'.checks[i] == c.checks[i] && LatestOfType(c'.checks, i);
    case TransitionShipment(target) =>
    case _ =>
  }

  /**
   * Creation leaves a REQUIREMENTS check in review. Until some other writer adds a newer check of
   * that type, no release is ever authorized or dispatched.
   */
  lemma {:induction false} RequirementsCheckGatesRelease(hash: Hasher, created: Case, run: seq<Action>)
    requires Created(created)
    requires forall a :: a in run && a.RewriteEvidence? ==> RequirementsBlocked(a.checks)
    ensures Unreleased(Execute(hash, created, run))
  {
    if run == [] {
      assert LatestOfType(created.checks, 0);
    } else {
      RequirementsCheckGatesRelease(hash, created, run[..|run| - 1]);
      assert run[|run| - 1] in run;
      UnreleasedStep(hash, Execute(hash, created, run[..|run| - 1]), run[|run| - 1]);
    }
  }

  lemma SameRowsSameSnapshot(c: Case, d: Case)
    requires c.tasks == d.tasks && c.evaluations == d.evaluations && c.checks == d.checks
    requires c.incidents == d.incidents && c.reference == d.reference
    ensures CurrentSnapshot(c) == CurrentSnapshot(d)
  {
  }

  lemma ApproveAppends(hash: Hasher, c: Case, i: nat, actor: UserId)
    requires c.status == ReleasePendingApproval && i < |c.decisions| && Live(c.decisions[i])
    requires c.decisions[i].evidenceHash == hash(CurrentSnapshot(c))
    requires c.decisions[i].decidedBy != actor && c.approvals == []
    ensures Approve(hash, c, i, actor) == (c.(status := ReleaseAuthorized, approvals := [Approval(i, actor)]), Done)
  {
    assert c.approvals + [Approval(i, actor)] == [Approval(i, actor)];
  }

  /** A live pending decision whose evidence is unchanged needs one approver other than its author. */
  lemma DispatchAfterApproval(hash: Hasher, c: Case, approver: UserId)
    requires c.status == ReleasePendingApproval && c.approvals == []
    requires LatestLive(c.decisions).Some?
    requires c.decisions[LatestLive(c.decisions).value].evidenceHash == hash(CurrentSnapshot(c))
    requires c.decisions[LatestLive(c.decisions).value].decidedBy != approver
    ensures Transition(hash, Approve(hash, c, LatestLive(c.decisions).value, approver).0, Dispatched).1 == Done
  {
    var i := LatestLive(c.decisions).value;
    ApproveAppends(hash, c, i, approver);
    var d := c.(status := ReleaseAuthorized, approvals := [Approval(i, approver)]);
    SameRowsSameSnapshot(c, d);
    assert d.approvals[0].decision == i && SecondApproved(d, i);
  }

  /**
   * The protocol is not vacuous: whenever the evidence of a shipment that nobody has approved yet
   * is clear, an AUTHORIZE decision by one person and an approval by another lead to dispatch.
   */
  lemma DispatchIsReachable(hash: Hasher, c: Case, author: UserId, approver: UserId)
    requires EvidenceClear(c) && c.approvals == [] && author != approver
    ensures var pending := Decide(hash, c, Authorize, author, true).0;
            var authorized := Approve(hash, pending, |c.decisions|, approver).0;
            Transition(hash, authorized, Dispatched) == (authorized.(status := Dispatched), Done)
  {
    AuthorizeCondition(hash, c, author);
    var pending := Authorized(hash, c, author);
    SameRowsSameSnapshot(c, pending);
    DispatchAfterApproval(hash, pending, approver);
  }

  lemma ExecuteOneMore(hash: Hasher, c: Case, run: seq<Action>, a: Action)
    ensures Execute(hash, c, run + [a]) == Apply(hash, Execute(hash, c, run), a).0
  {
    assert (run + [a])[..|run|] == run;
  }

  /** A run to a shipment whose rows are all clear, when other writers clear them. */
  lemma SomeRunClears(hash: Hasher, created: Case) returns (run: seq<Action>)
    requires Created(created)
    ensures var c := Execute(hash, created, run); EvidenceClear(c) && c.approvals == [] && c.decisions == []
  {
    run := [] + [RewriteEvidence([], [], [], [])];
    ExecuteOneMore(hash, created, [], RewriteEvidence([], [], [], []));
  }

  lemma ThreeMoreSteps(hash: Hasher, c: Case, run: seq<Action>, a: Action, b: Action, d: Action)
    ensures Execute(hash, c, run + [a] + [b] + [d]) ==
            Apply(hash, Apply(hash, Apply(hash, Execute(hash, c, run), a).0, b).0, d).0
  {
    ExecuteOneMore(hash, c, run, a);
    ExecuteOneMore(hash, c, run + [a], b);
    ExecuteOneMore(hash, c, run + [a] + [b], d);
  }

  lemma ThreeSteps(hash: Hasher, c: Case, author: UserId, approver: UserId, pending: Case, authorized: Case)
    requires pending == Decide(hash, c, Authorize, author, true).0
    requires authorized == Approve(hash, pending, 0, approver).0
    ensures Apply(hash, c, DecideRelease(Authorize, author, true)).0 == pending
    ensures Apply(hash, pending, ApproveRelease(0, approver)).0 == authorized
    ensures Apply(hash, authorized, TransitionShipment(Dispatched)) == Transition(hash, authorized, Dispatched)
  {
  }

  lemma ThreeStepsDispatch(hash: Hasher, c: Case, author: UserId, approver: UserId)
      returns (pending: Case, authorized: Case)
    requires EvidenceClear(c) && c.approvals == [] && c.decisions == [] && author != approver
    ensures Apply(hash, c, DecideRelease(Authorize, author, true)).0 == pending
    ensures Apply(hash, pending, ApproveRelease(0, approver)).0 == authorized
    ensures Apply(hash, authorized, TransitionShipment(Dispatched)).0.status == Dispatched
  {
    DispatchIsReachable(hash, c, author, approver);
    pending := Decide(hash, c, Authorize, author, true).0;
    authorized := Approve(hash, pending, 0, approver).0;
    ThreeSteps(hash, c, author, approver, pending, authorized);
  }

  /** In particular, a run takes a newly created shipment to dispatch. */
  lemma SomeRunDispatches(hash: Hasher, created: Case, author: UserId, approver: UserId)
    requires Created(created) && author != approver
    ensures exists run :: Execute(hash, created, run).status == Dispatched
  {
    var run := SomeRunClears(hash, created);
    var pending, authorized := ThreeStepsDispatch(hash, Execute(hash, created, run), author, approver);
    ThreeMoreSteps(hash, created, run, DecideRelease(Authorize, author, true), ApproveRelease(0, approver),
        TransitionShipment(Dispatched));
  }

  /**
   * An authorized status does not by itself make the shipment dispatchable: when two AUTHORIZE
   * decisions are pending, approving the older one authorizes the shipment but cannot dispatch it.
   */
  lemma AuthorizedNeedNotDispatch(hash: Hasher, c: Case, author: UserId, approver: UserId)
    requires EvidenceClear(c) && c.approvals == [] && author != approver
    ensures var first := Decide(hash, c, Authorize, author, true).0;
            var second := Decide(hash, first, Authorize, author, true).0;
            var authorized := Approve(hash, second, |c.decisions|, approver).0;
            && authorized.status == ReleaseAuthorized
            && Transition(hash, authorized, Dispatched).1 == Refused(FourEyesRequired)
  {
    AuthorizeCondition(hash, c, author);
    var first := Authorized(hash, c, author);
    AuthorizeCondition(hash, first, author);
    var second := Authorized(hash, first, author);
    SameRowsSameSnapshot(c, second);
    var i := |c.decisions|;
    ApproveAppends(hash, second, i, approver);
    var authorized := second.(status := ReleaseAuthorized, approvals := [Approval(i, approver)]);
    assert LatestLive(authorized.decisions) == Some(i + 1) && !SecondApproved(authorized, i + 1);
  }
}
