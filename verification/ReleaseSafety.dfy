/** What every run of the release protocol keeps, and what no run of it can do. */
module ReleaseSafety {
  import opened Wrappers
  import opened Assurance
  import opened ReleaseIntegrity
  import opened ReleaseProtocol
  import StringOrder

  // ---------------------------------------------------------------------------------------------
  // The invariant
  // ---------------------------------------------------------------------------------------------

  function Rank(version: Option<nat>): nat {
    if version.Some? then version.value else 0
  }

  function CurrentRank(c: Case): nat {
    if c.reference.Some? then c.reference.value.version else 0
  }

  predicate Clean(s: Snapshot) {
    s.missingRequirements == [] && s.blockingChecks == [] && s.blockingExceptions == [] && s.openTasks == 0
  }

  predicate DecisionSound(hash: Hasher, c: Case, i: nat)
    requires i < |c.decisions|
  {
    var d := c.decisions[i];
    && d.evidenceHash == hash(d.snapshot)
    && (d.kind == Authorize ==> Clean(d.snapshot))
    && Rank(d.snapshot.referenceVersion) <= CurrentRank(c)
    && d.sequence == i + 1
  }

  predicate ApprovalSound(c: Case, k: nat)
    requires k < |c.approvals|
  {
    var a := c.approvals[k];
    && a.decision < |c.decisions|
    && c.decisions[a.decision].kind == Authorize
    && a.approver != c.decisions[a.decision].decidedBy
  }

  predicate Inv(hash: Hasher, c: Case) {
    && (forall i :: 0 <= i < |c.decisions| ==> DecisionSound(hash, c, i))
    && (forall k :: 0 <= k < |c.approvals| ==> ApprovalSound(c, k))
    && (c.reference.Some? ==> c.reference.value.version > 0)
    && (c.status == ReleasePendingApproval ==> exists i :: 0 <= i < |c.decisions| && Live(c.decisions[i]))
    && (c.status == ReleaseAuthorized ==>
          exists i :: 0 <= i < |c.decisions| && Live(c.decisions[i]) && SecondApproved(c, i))
  }

  lemma MaxSequenceCounts(ds: seq<Decision>)
    requires forall i :: 0 <= i < |ds| ==> ds[i].sequence == i + 1
    ensures MaxSequence(ds) == |ds|
  {
  }

  lemma AppendKeepsInv(hash: Hasher, c: Case, c': Case, d: Decision)
    requires Inv(hash, c)
    requires c'.decisions == c.decisions + [d] && c'.approvals == c.approvals && c'.reference == c.reference
    requires d.evidenceHash == hash(d.snapshot) && Rank(d.snapshot.referenceVersion) == CurrentRank(c)
    requires d.kind == Authorize ==> Clean(d.snapshot) && !d.invalidated
    requires d.sequence == |c.decisions| + 1
    requires c'.status == if d.kind == Authorize then ReleasePendingApproval else Hold
    ensures Inv(hash, c')
  {
    var n := |c.decisions|;
    forall i | 0 <= i < |c'.decisions| ensures DecisionSound(hash, c', i) {
      if i < n { assert DecisionSound(hash, c, i); }
    }
    forall k | 0 <= k < |c'.approvals| ensures ApprovalSound(c', k) { assert ApprovalSound(c, k); }
    assert d.kind == Authorize ==> Live(c'.decisions[n]);
  }

  lemma DecideKeepsInv(hash: Hasher, c: Case, kind: DecisionKind, actor: UserId, policyPublished: bool)
    requires Inv(hash, c)
    ensures Inv(hash, Decide(hash, c, kind, actor, policyPublished).0)
  {
    var (c', r) := Decide(hash, c, kind, actor, policyPublished);
    if r.Done? {
      forall i | 0 <= i < |c.decisions| ensures c.decisions[i].sequence == i + 1 { assert DecisionSound(hash, c, i); }
      MaxSequenceCounts(c.decisions);
      AppendKeepsInv(hash, c, c', c'.decisions[|c.decisions|]);
    }
  }

  lemma InvalidateKeepsRows(hash: Hasher, c: Case, c': Case, i: nat)
    requires Inv(hash, c) && i < |c.decisions|
    requires c'.decisions == Invalidate(c.decisions, i) && c'.approvals == c.approvals
    requires c'.status !in {ReleasePendingApproval, ReleaseAuthorized}
    requires c'.reference.Some? ==> c'.reference.value.version > 0
    requires CurrentRank(c) <= CurrentRank(c')
    ensures Inv(hash, c')
  {
    forall j | 0 <= j < |c'.decisions| ensures DecisionSound(hash, c', j) { assert DecisionSound(hash, c, j); }
    forall k | 0 <= k < |c'.approvals| ensures ApprovalSound(c', k) { assert ApprovalSound(c, k); }
  }

  lemma ApproveKeepsInv(hash: Hasher, c: Case, i: nat, actor: UserId)
    requires Inv(hash, c)
    ensures Inv(hash, Approve(hash, c, i, actor).0)
  {
    var (c', r) := Approve(hash, c, i, actor);
    if r.Done? {
      forall j | 0 <= j < |c'.decisions| ensures DecisionSound(hash, c', j) { assert DecisionSound(hash, c, j); }
      forall k | 0 <= k < |c'.approvals| ensures ApprovalSound(c', k) {
        if k < |c.approvals| { assert ApprovalSound(c, k); }
      }
      var k := |c.approvals|;
      assert c'.approvals[k].decision == i && c'.approvals[k].approver != c'.decisions[i].decidedBy;
      assert Live(c'.decisions[i]) && SecondApproved(c', i);
    } else if c' != c {
      InvalidateKeepsRows(hash, c, c', i);
    }
  }

  lemma SaveReferenceKeepsInv(hash: Hasher, c: Case, contentHash: string, findings: bool)
    requires Inv(hash, c)
    ensures Inv(hash, SaveReference(c, contentHash, findings).0)
    ensures CurrentRank(c) < CurrentRank(SaveReference(c, contentHash, findings).0)
  {
    var c' := SaveReference(c, contentHash, findings).0;
    match LatestLive(c.decisions)
    case None =>
      forall j | 0 <= j < |c'.decisions| ensures DecisionSound(hash, c', j) { assert DecisionSound(hash, c, j); }
      forall k | 0 <= k < |c'.approvals| ensures ApprovalSound(c', k) { assert ApprovalSound(c, k); }
    case Some(i) => InvalidateKeepsRows(hash, c, c', i);
  }

  /** A step that leaves decisions, approvals and reference alone and does not enter a release status. */
  lemma OtherStepKeepsInv(hash: Hasher, c: Case, c': Case)
    requires Inv(hash, c)
    requires c'.decisions == c.decisions && c'.approvals == c.approvals && c'.reference == c.reference
    requires c'.status == c.status || c'.status !in {ReleasePendingApproval, ReleaseAuthorized}
    ensures Inv(hash, c')
  {
    forall j | 0 <= j < |c'.decisions| ensures DecisionSound(hash, c', j) { assert DecisionSound(hash, c, j); }
    forall k | 0 <= k < |c'.approvals| ensures ApprovalSound(c', k) { assert ApprovalSound(c, k); }
    if c'.status == ReleaseAuthorized {
      var i :| 0 <= i < |c.decisions| && Live(c.decisions[i]) && SecondApproved(c, i);
      assert SecondApproved(c', i);
    }
  }

  lemma StepKeepsInv(hash: Hasher, c: Case, a: Action)
    requires Inv(hash, c)
    ensures Inv(hash, Apply(hash, c, a).0)
  {
    match a
    case DecideRelease(kind, actor, policyPublished) => DecideKeepsInv(hash, c, kind, actor, policyPublished);
    case ApproveRelease(i, actor) => ApproveKeepsInv(hash, c, i, actor);
    case SaveTrustedReference(contentHash, findings) => SaveReferenceKeepsInv(hash, c, contentHash, findings);
    case TransitionShipment(target) =>
      var c' := Transition(hash, c, target).0;
      if c'.decisions != c.decisions {
        InvalidateKeepsRows(hash, c, c', LatestLive(c.decisions).value);
      } else {
        OtherStepKeepsInv(hash, c, c');
      }
    case _ => OtherStepKeepsInv(hash, c, Apply(hash, c, a).0);
  }

  /**
   * In every reachable state a pending shipment has a live AUTHORIZE decision, an authorized one
   * has a live AUTHORIZE decision approved by someone other than its author, decision sequence
   * numbers count up from one, and every AUTHORIZE decision pins clean evidence.
   */
  lemma {:induction false} RunsKeepInv(hash: Hasher, c: Case, run: seq<Action>)
    requires Inv(hash, c)
    ensures Inv(hash, Execute(hash, c, run))
  {
    if run != [] {
      RunsKeepInv(hash, c, run[..|run| - 1]);
      StepKeepsInv(hash, Execute(hash, c, run[..|run| - 1]), run[|run| - 1]);
    }
  }

  // ---------------------------------------------------------------------------------------------
  // Dispatch safety
  // ---------------------------------------------------------------------------------------------

  predicate LatestOfType(checks: seq<Check>, i: nat)
    requires i < |checks|
  {
    forall j :: i < j < |checks| ==> checks[j].checkType != checks[i].checkType
  }

  /** Row by row: nothing is open, missing or blocking. */
  predicate EvidenceClear(c: Case) {
    && (forall t :: t in c.tasks ==> t == Resolved)
    && (forall e :: e in c.evaluations ==>
         e.requirementStatus in {"REQUIRED", "ACTIVE"} ==> e.result in {"PROVIDED", "CLEAR", "NOT_APPLICABLE"})
    && (forall i :: 0 <= i < |c.checks| && LatestOfType(c.checks, i) ==>
         c.checks[i].status !in {"HOLD", "REVIEW", "PENDING", "RUNNING", "FAILED"})
    && (forall x :: x in c.incidents ==> x.severity in {"HIGH", "CRITICAL"} ==> x.status in {"RESOLVED", "CANCELLED"})
  }

  lemma {:induction false} NoOpenTasks(tasks: seq<TaskStatus>)
    ensures OpenTasks(tasks) == 0 <==> forall t :: t in tasks ==> t == Resolved
  {
    if tasks != [] {
      var rest, last := tasks[..|tasks| - 1], tasks[|tasks| - 1];
      NoOpenTasks(rest);
      assert tasks == rest + [last];
      assert last in tasks;
      assert forall t :: t in tasks <==> t in rest || t == last;
      if forall t :: t in tasks ==> t == Resolved {
        assert last == Resolved && OpenTasks(rest) == 0;
      }
    }
  }

  lemma {:induction false} NoneMissing(evaluations: seq<Evaluation>)
    ensures MissingRequirements(evaluations) == [] <==> forall e :: e in evaluations ==> !Missing(e)
  {
    if evaluations != [] {
      NoneMissing(evaluations[..|evaluations| - 1]);
      assert evaluations == evaluations[..|evaluations| - 1] + [evaluations[|evaluations| - 1]];
    }
  }

  lemma {:induction false} NoBlockingIncident(incidents: seq<Incident>)
    ensures BlockingIncidents(incidents) == [] <==> forall x :: x in incidents ==> !OpenBlocker(x)
  {
    if incidents != [] {
      NoBlockingIncident(incidents[..|incidents| - 1]);
      assert incidents == incidents[..|incidents| - 1] + [incidents[|incidents| - 1]];
    }
  }

  lemma {:induction false} LatestChecksCoverTypes(checks: seq<Check>, t: string)
    ensures t in LatestChecks(checks) <==> exists i :: 0 <= i < |checks| && checks[i].checkType == t
  {
    if checks != [] {
      LatestChecksCoverTypes(checks[1..], t);
      assert forall i :: 0 < i < |checks| ==> checks[i] == checks[1..][i - 1];
      if exists i :: 0 <= i < |checks| && checks[i].checkType == t {
        var i :| 0 <= i < |checks| && checks[i].checkType == t;
        if i > 0 { assert checks[1..][i - 1].checkType == t; }
      }
    }
  }

  /** The newest-first scan keeps, for each type, the newest row of that type. */
  lemma {:induction false} LatestChecksAreLatest(checks: seq<Check>, i: nat)
    requires i < |checks| && LatestOfType(checks, i)
    ensures checks[i].checkType in LatestChecks(checks) && LatestChecks(checks)[checks[i].checkType] == checks[i]
  {
    LatestChecksCoverTypes(checks[1..], checks[i].checkType);
    assert forall j :: 0 < j < |checks| ==> checks[j] == checks[1..][j - 1];
    if i > 0 {
      LatestChecksAreLatest(checks[1..], i - 1);
    }
  }

  lemma {:induction false} NoBlockingCheck(checks: seq<Check>)
    ensures BlockingChecks(checks) == [] <==>
            forall i :: 0 <= i < |checks| && LatestOfType(checks, i) ==> !Blocking(checks[i])
  {
    if checks != [] {
      NoBlockingCheck(checks[1..]);
      LatestChecksCoverTypes(checks[1..], checks[0].checkType);
      assert forall i :: 0 < i < |checks| ==> checks[i] == checks[1..][i - 1];
      assert forall i :: 0 < i < |checks| ==> (LatestOfType(checks, i) <==> LatestOfType(checks[1..], i - 1));
      assert LatestOfType(checks, 0) <==> checks[0].checkType !in LatestChecks(checks[1..]);
    }
  }

  lemma SortEmpty(s: seq<string>)
    ensures StringOrder.Sort(s) == [] <==> s == []
  {
    StringOrder.SortSorts(s);
    assert |multiset(StringOrder.Sort(s))| == |multiset(s)|;
  }

  /** A snapshot is clean exactly when no row is open, missing or blocking. */
  lemma CleanMeansClear(c: Case)
    ensures Clean(CurrentSnapshot(c)) <==> EvidenceClear(c)
  {
    SortEmpty(MissingRequirements(c.evaluations));
    SortEmpty(BlockingChecks(c.checks));
    SortEmpty(BlockingIncidents(c.incidents));
    NoOpenTasks(c.tasks);
    NoneMissing(c.evaluations);
    NoBlockingIncident(c.incidents);
    NoBlockingCheck(c.checks);
  }

  /** Decision `i` justifies dispatching the shipment in its present state. */
  predicate Justifies(c: Case, i: nat) {
    && i < |c.decisions|
    && Live(c.decisions[i])
    && SecondApproved(c, i)
    && c.decisions[i].snapshot.referenceVersion == (if c.reference.Some? then Some(c.reference.value.version) else None)
    && c.decisions[i].snapshot.referenceHash == (if c.reference.Some? then c.reference.value.contentHash else None)
  }

  lemma DispatchIsSafeAt(hash: Hasher, c: Case)
    requires Separates(hash) && Inv(hash, c) && Transition(hash, c, Dispatched).1 == Done
    ensures EvidenceClear(c) && Justifies(c, LatestLive(c.decisions).value)
  {
    assert DecisionSound(hash, c, LatestLive(c.decisions).value);
    CleanMeansClear(c);
  }

  /**
   * Whenever a run dispatches the shipment, a live AUTHORIZE decision approved by a second person
   * pins the trusted reference as it now is, and the evidence is clear at that very moment,
   * although dispatch itself looks at no task, requirement, check or exception row.
   */
  lemma DispatchIsSafe(hash: Hasher, created: Case, run: seq<Action>)
    requires Separates(hash) && Created(created)
    requires Apply(hash, Execute(hash, created, run), TransitionShipment(Dispatched)).1 == Done
    ensures var c := Execute(hash, created, run);
            EvidenceClear(c) && exists i :: Justifies(c, i)
  {
    RunsKeepInv(hash, created, run);
    DispatchIsSafeAt(hash, Execute(hash, created, run));
  }

  /** No other step enters the dispatched status. */
  lemma OnlyTransitionDispatches(hash: Hasher, c: Case, a: Action)
    requires c.status != Dispatched && Apply(hash, c, a).0.status == Dispatched
    ensures a == TransitionShipment(Dispatched) && Apply(hash, c, a).1 == Done
  {
    match a
    case DecideRelease(kind, actor, policyPublished) =>
    case ApproveRelease(i, actor) =>
    case SaveTrustedReference(contentHash, findings) =>
    case TransitionShipment(target) =>
    case _ =>
  }

  /** The step that brings a run to its dispatched status. */
  lemma {:induction false} DispatchingStep(hash: Hasher, c: Case, run: seq<Action>) returns (k: nat)
    requires c.status != Dispatched
    ensures Execute(hash, c, run).status == Dispatched ==>
              && k < |run| && Execute(hash, c, run[..k]).status != Dispatched
              && Apply(hash, Execute(hash, c, run[..k]), run[k]).0.status == Dispatched
  {
    k := 0;
    if run != [] {
      var before := run[..|run| - 1];
      k := DispatchingStep(hash, c, before);
      if Execute(hash, c, before).status == Dispatched {
        assert before[..k] == run[..k];
      } else {
        k := |run| - 1;
      }
    }
  }

  /** Behind every dispatched shipment stands a dispatch step taken when the evidence was clear and pinned. */
  lemma EveryDispatchWasJustified(hash: Hasher, created: Case, run: seq<Action>) returns (k: nat)
    requires Separates(hash) && Created(created) && Execute(hash, created, run).status == Dispatched
    ensures k < |run| && run[k] == TransitionShipment(Dispatched)
    ensures var c := Execute(hash, created, run[..k]);
            Transition(hash, c, Dispatched).1 == Done && EvidenceClear(c) && exists i :: Justifies(c, i)
  {
    k := DispatchingStep(hash, created, run);
    var c := Execute(hash, created, run[..k]);
    OnlyTransitionDispatches(hash, c, run[k]);
    RunsKeepInv(hash, created, run[..k]);
    DispatchIsSafeAt(hash, c);
  }

  lemma DispatchConditionAt(hash: Hasher, c: Case)
    requires Separates(hash) && Inv(hash, c)
    ensures Transition(hash, c, Dispatched).1 == Done <==>
            && c.status == ReleaseAuthorized
            && LatestLive(c.decisions).Some?
            && (exists k :: 0 <= k < |c.approvals| && c.approvals[k].decision == LatestLive(c.decisions).value)
            && CurrentSnapshot(c) == c.decisions[LatestLive(c.decisions).value].snapshot
  {
    match LatestLive(c.decisions)
    case None =>
    case Some(i) =>
      assert DecisionSound(hash, c, i);
      forall k | 0 <= k < |c.approvals| && c.approvals[k].decision == i
        ensures c.approvals[k].approver != c.decisions[i].decidedBy
      {
        assert ApprovalSound(c, k);
      }
  }

  /**
   * In every reachable state, dispatch succeeds exactly when the shipment is authorized, its newest
   * live decision is one that was approved, and the evidence that decision pinned is unchanged.
   */
  lemma DispatchCondition(hash: Hasher, created: Case, run: seq<Action>)
    requires Separates(hash) && Created(created)
    ensures var c := Execute(hash, created, run);
            Transition(hash, c, Dispatched).1 == Done <==>
            && c.status == ReleaseAuthorized
            && LatestLive(c.decisions).Some?
            && (exists k :: 0 <= k < |c.approvals| && c.approvals[k].decision == LatestLive(c.decisions).value)
            && CurrentSnapshot(c) == c.decisions[LatestLive(c.decisions).value].snapshot
  {
    RunsKeepInv(hash, created, run);
    DispatchConditionAt(hash, Execute(hash, created, run));
  }

  /**
   * An approval succeeds exactly when the decision is live, the shipment is pending, the evidence
   * is what the decision pinned and the approver is neither its author nor a repeated approver.
   */
  lemma ApproveCondition(hash: Hasher, c: Case, i: nat, actor: UserId)
    requires Separates(hash) && Inv(hash, c)
    ensures Approve(hash, c, i, actor).1 == Done <==>
            && i < |c.decisions| && Live(c.decisions[i]) && c.status == ReleasePendingApproval
            && CurrentSnapshot(c) == c.decisions[i].snapshot
            && c.decisions[i].decidedBy != actor && Approval(i, actor) !in c.approvals
  {
    if i < |c.decisions| { assert DecisionSound(hash, c, i); }
  }

  /** So nothing is approved while a row is open, missing or blocking. */
  lemma ApprovedMeansClear(hash: Hasher, c: Case, i: nat, actor: UserId)
    requires Separates(hash) && Inv(hash, c) && Approve(hash, c, i, actor).1 == Done
    ensures EvidenceClear(c)
  {
    ApproveCondition(hash, c, i, actor);
    assert DecisionSound(hash, c, i);
    CleanMeansClear(c);
  }

  function Authorized(hash: Hasher, c: Case, actor: UserId): Case {
    c.(status := ReleasePendingApproval,
       decisions := c.decisions +
         [Decision(
            Authorize, MaxSequence(c.decisions) + 1, CurrentSnapshot(c), hash(CurrentSnapshot(c)), actor, false)])
  }

  /** Clear evidence is all an AUTHORIZE decision asks for, beside a published policy. */
  lemma AuthorizeCondition(hash: Hasher, c: Case, actor: UserId)
    ensures Decide(hash, c, Authorize, actor, true) ==
            if EvidenceClear(c) then (Authorized(hash, c, actor), Done) else (c, Refused(ReviewIsRequired))
  {
    NoOpenTasks(c.tasks);
    NoneMissing(c.evaluations);
    NoBlockingIncident(c.incidents);
    NoBlockingCheck(c.checks);
  }

  lemma HoldOpensItem(hash: Hasher, c: Case, holder: UserId, policyPublished: bool)
    ensures var held := Decide(hash, c, PlaceHold, holder, policyPublished).0;
            held.status == Hold && !EvidenceClear(held)
  {
    var held := Decide(hash, c, PlaceHold, holder, policyPublished).0;
    assert held.tasks[|c.tasks|] == Open && Open in held.tasks;
  }

  /** The item a HOLD decision opens stops authorization, and its status stops approval and dispatch. */
  lemma HoldBlocksRelease(hash: Hasher, c: Case, holder: UserId, policyPublished: bool, actor: UserId, i: nat)
    ensures var held := Decide(hash, c, PlaceHold, holder, policyPublished).0;
            && Decide(hash, held, Authorize, actor, true) == (held, Refused(ReviewIsRequired))
            && Approve(hash, held, i, actor).1 != Done
            && Transition(hash, held, Dispatched).1 != Done
  {
    HoldOpensItem(hash, c, holder, policyPublished);
    AuthorizeCondition(hash, Decide(hash, c, PlaceHold, holder, policyPublished).0, actor);
  }

  /** The rows are clear when checks of trusted references are left out. */
  predicate ClearButReference(c: Case) {
    && (forall t :: t in c.tasks ==> t == Resolved)
    && (forall e :: e in c.evaluations ==>
         e.requirementStatus in {"REQUIRED", "ACTIVE"} ==> e.result in {"PROVIDED", "CLEAR", "NOT_APPLICABLE"})
    && (forall i :: 0 <= i < |c.checks| && LatestOfType(c.checks, i) && c.checks[i].checkType != TRUSTED_REFERENCE ==>
         c.checks[i].status !in {"HOLD", "REVIEW", "PENDING", "RUNNING", "FAILED"})
    && (forall x :: x in c.incidents ==> x.severity in {"HIGH", "CRITICAL"} ==> x.status in {"RESOLVED", "CANCELLED"})
  }

  lemma LatestAfterAppend(checks: seq<Check>, check: Check, i: nat)
    requires i < |checks|
    ensures LatestOfType(checks + [check], i) <==> LatestOfType(checks, i) && check.checkType != checks[i].checkType
  {
    var all := checks + [check];
    assert all[|checks|] == check;
    assert forall j :: 0 <= j < |checks| ==> all[j] == checks[j];
  }

  /**
   * After a trusted reference is saved the rows are clear exactly when its comparison has no
   * finding and every row but earlier reference checks is clear.
   */
  lemma ClearAfterSave(c: Case, contentHash: string, findings: bool)
    ensures EvidenceClear(SaveReference(c, contentHash, findings).0) <==> !findings && ClearButReference(c)
  {
    var saved := SaveReference(c, contentHash, findings).0;
    var n := |c.checks|;
    forall i | 0 <= i < n
      ensures saved.checks[i] == c.checks[i]
      ensures LatestOfType(saved.checks, i) <==> LatestOfType(c.checks, i) && c.checks[i].checkType != TRUSTED_REFERENCE
    {
      LatestAfterAppend(c.checks, saved.checks[n], i);
    }
    assert LatestOfType(saved.checks, n);
    assert Blocking(saved.checks[n]) <==> findings;
  }

  // ---------------------------------------------------------------------------------------------
  // A saved trusted reference retires every earlier decision
  // ---------------------------------------------------------------------------------------------

  /** The first `n` decisions pin a reference older than the present one. */
  predicate Stale(c: Case, n: nat) {
    n <= |c.decisions| && forall i :: 0 <= i < n ==> Rank(c.decisions[i].snapshot.referenceVersion) < CurrentRank(c)
  }

  lemma DecideAppends(hash: Hasher, c: Case, kind: DecisionKind, actor: UserId, policyPublished: bool)
    ensures c.decisions <= Decide(hash, c, kind, actor, policyPublished).0.decisions
    ensures Decide(hash, c, kind, actor, policyPublished).0.reference == c.reference
  {
  }

  /** No step removes a decision, changes what one pinned, or takes the reference back. */
  lemma PinsAreKept(hash: Hasher, c: Case, a: Action, i: nat)
    requires i < |c.decisions|
    ensures var c' := Apply(hash, c, a).0;
            && i < |c'.decisions| && c'.decisions[i].snapshot == c.decisions[i].snapshot
            && CurrentRank(c) <= CurrentRank(c')
  {
    match a
    case DecideRelease(kind, actor, policyPublished) => DecideAppends(hash, c, kind, actor, policyPublished);
    case ApproveRelease(d, actor) =>
    case SaveTrustedReference(contentHash, findings) =>
    case TransitionShipment(target) =>
    case _ =>
  }

  lemma {:induction false} StaleForever(hash: Hasher, c: Case, n: nat, run: seq<Action>)
    requires Stale(c, n)
    ensures Stale(Execute(hash, c, run), n)
  {
    if run != [] && n > 0 {
      var before := run[..|run| - 1];
      StaleForever(hash, c, n, before);
      var mid := Execute(hash, c, before);
      PinsAreKept(hash, mid, run[|run| - 1], n - 1);
      forall i | 0 <= i < n
        ensures Rank(Execute(hash, c, run).decisions[i].snapshot.referenceVersion) < CurrentRank(Execute(hash, c, run))
      {
        PinsAreKept(hash, mid, run[|run| - 1], i);
      }
    }
  }

  lemma SaveMakesStale(hash: Hasher, c: Case, contentHash: string, findings: bool)
    requires Inv(hash, c)
    ensures Stale(SaveReference(c, contentHash, findings).0, |c.decisions|)
  {
    SaveReferenceKeepsInv(hash, c, contentHash, findings);
    forall i | 0 <= i < |c.decisions|
      ensures SaveReference(c, contentHash, findings).0.decisions[i].snapshot == c.decisions[i].snapshot
      ensures Rank(c.decisions[i].snapshot.referenceVersion) <= CurrentRank(c)
    {
      assert DecisionSound(hash, c, i);
    }
  }

  lemma StaleIsPowerless(hash: Hasher, c: Case, n: nat, i: nat, approver: UserId)
    requires Separates(hash) && Inv(hash, c) && Stale(c, n) && i < n
    ensures Approve(hash, c, i, approver).1 != Done
    ensures Transition(hash, c, Dispatched).1 == Done ==> LatestLive(c.decisions) != Some(i) && !Justifies(c, i)
  {
    assert DecisionSound(hash, c, i);
    assert CurrentSnapshot(c).referenceVersion != c.decisions[i].snapshot.referenceVersion;
  }

  /**
   * After a trusted reference is saved, no decision recorded before can be approved or be the one
   * a dispatch relies on, in any continuation of the run.
   */
  lemma SavedReferenceRetiresDecisions(
      hash: Hasher, created: Case, before: seq<Action>, contentHash: string, findings: bool, after: seq<Action>,
      i: nat, approver: UserId)
    requires Separates(hash) && Created(created)
    requires i < |Execute(hash, created, before).decisions|
    ensures var saved := Apply(hash, Execute(hash, created, before), SaveTrustedReference(contentHash, findings)).0;
            var c := Execute(hash, saved, after);
            && Apply(hash, c, ApproveRelease(i, approver)).1 != Done
            && (Apply(hash, c, TransitionShipment(Dispatched)).1 == Done ==>
                 LatestLive(c.decisions) != Some(i) && !Justifies(c, i))
  {
    var c0 := Execute(hash, created, before);
    RunsKeepInv(hash, created, before);
    SaveReferenceKeepsInv(hash, c0, contentHash, findings);
    SaveMakesStale(hash, c0, contentHash, findings);
    var saved := SaveReference(c0, contentHash, findings).0;
    StaleForever(hash, saved, |c0.decisions|, after);
    RunsKeepInv(hash, saved, after);
    StaleIsPowerless(hash, Execute(hash, saved, after), |c0.decisions|, i, approver);
  }

  /** The save itself stamps one row: every decision but the newest live one is left as it was. */
  lemma SaveStampsOnlyLatest(c: Case, contentHash: string, findings: bool, i: nat)
    requires i < |c.decisions| && LatestLive(c.decisions) != Some(i)
    ensures SaveReference(c, contentHash, findings).0.decisions[i] == c.decisions[i]
  {
  }
}
