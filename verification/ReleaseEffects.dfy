/** What every step of the release protocol leaves behind, whether it succeeds or is refused. */
module ReleaseEffects {
  import opened Wrappers
  import opened Assurance
  import opened ReleaseIntegrity
  import opened ReleaseProtocol
  import opened ReleaseSafety
  import Digits

  /** Row `i` is the newest AUTHORIZE row that is not invalidated. */
  predicate NewestLive(ds: seq<Decision>, i: nat) {
    && i < |ds| && ds[i].kind == Authorize && !ds[i].invalidated
    && forall j :: i < j < |ds| ==> ds[j].kind != Authorize || ds[j].invalidated
  }

  predicate Approved(c: Case, i: nat) {
    exists k :: 0 <= k < |c.approvals| && c.approvals[k].decision == i
  }

  lemma NewestIsLatest(ds: seq<Decision>, i: nat)
    ensures NewestLive(ds, i) <==> LatestLive(ds) == Some(i)
  {
    assert forall d: Decision :: Live(d) <==> d.kind == Authorize && !d.invalidated;
  }

  lemma SecondApprovedIffApproved(hash: Hasher, c: Case, i: nat)
    requires Inv(hash, c) && i < |c.decisions|
    ensures SecondApproved(c, i) <==> Approved(c, i)
  {
    forall k | 0 <= k < |c.approvals| && c.approvals[k].decision == i
      ensures c.approvals[k].approver != c.decisions[i].decidedBy
    {
      assert ApprovalSound(c, k);
    }
  }

  lemma HashTellsEvidence(hash: Hasher, c: Case, i: nat)
    requires Separates(hash) && Inv(hash, c) && i < |c.decisions|
    ensures hash(CurrentSnapshot(c)) == c.decisions[i].evidenceHash <==> CurrentSnapshot(c) == c.decisions[i].snapshot
  {
    assert DecisionSound(hash, c, i);
  }

  ghost predicate Reachable(hash: Hasher, c: Case) {
    exists created, run :: Created(created) && Execute(hash, created, run) == c
  }

  lemma ReachableKeepsInv(hash: Hasher, c: Case)
    requires Reachable(hash, c)
    ensures Inv(hash, c)
  {
    var created, run :| Created(created) && Execute(hash, created, run) == c;
    RunsKeepInv(hash, created, run);
  }

  // ---------------------------------------------------------------------------------------------
  // Outcomes
  // ---------------------------------------------------------------------------------------------

  /** Decision `i` is invalidated and the release with it; every other row is as it was. */
  function Withdrawn(c: Case, i: nat): Case
    requires i < |c.decisions|
  {
    c.(status := ReleaseInvalidated, decisions := c.decisions[i := c.decisions[i].(invalidated := true)])
  }

  lemma DispatchOfNewest(hash: Hasher, c: Case, i: nat)
    requires Separates(hash) && Inv(hash, c) && c.status == ReleaseAuthorized && NewestLive(c.decisions, i)
    ensures Transition(hash, c, Dispatched) ==
            if !Approved(c, i) then (c, Refused(FourEyesRequired))
            else if CurrentSnapshot(c) != c.decisions[i].snapshot then (Withdrawn(c, i), Refused(InvalidatedRelease))
            else (c.(status := Dispatched), Done)
  {
    NewestIsLatest(c.decisions, i);
    SecondApprovedIffApproved(hash, c, i);
    HashTellsEvidence(hash, c, i);
  }

  /**
   * All outcomes of a dispatch in a reachable state. Only an authorized shipment gets past the
   * table, and it always has a live decision; a newest one that nobody approved refuses; one that
   * pins other evidence than the present is invalidated, and nothing else but the status changes.
   */
  lemma DispatchOutcomes(hash: Hasher, c: Case)
    requires Separates(hash) && Reachable(hash, c)
    ensures c.status != ReleaseAuthorized ==> Transition(hash, c, Dispatched) == (c, Refused(InvalidTransition))
    ensures c.status == ReleaseAuthorized ==> exists i :: NewestLive(c.decisions, i)
    ensures forall i: nat :: c.status == ReleaseAuthorized && NewestLive(c.decisions, i) ==>
              (Transition(hash, c, Dispatched) ==
                if !Approved(c, i) then (c, Refused(FourEyesRequired))
                else if CurrentSnapshot(c) != c.decisions[i].snapshot
                then (Withdrawn(c, i), Refused(InvalidatedRelease))
                else (c.(status := Dispatched), Done))
  {
    ReachableKeepsInv(hash, c);
    if LatestLive(c.decisions).Some? { NewestIsLatest(c.decisions, LatestLive(c.decisions).value); }
    if c.status == ReleaseAuthorized {
      forall i: nat | NewestLive(c.decisions, i)
        ensures Transition(hash, c, Dispatched) ==
                if !Approved(c, i) then (c, Refused(FourEyesRequired))
                else if CurrentSnapshot(c) != c.decisions[i].snapshot
                then (Withdrawn(c, i), Refused(InvalidatedRelease))
                else (c.(status := Dispatched), Done)
      {
        DispatchOfNewest(hash, c, i);
      }
    }
  }

  /**
   * A dispatch of an authorized shipment that could be reached, whose newest live decision `i` was
   * approved but pins other evidence than the present.
   */
  ghost predicate DispatchMeetsChange(hash: Hasher, c: Case, target: ShipmentStatus, i: nat) {
    && Separates(hash) && Reachable(hash, c) && target == Dispatched && c.status == ReleaseAuthorized
    && NewestLive(c.decisions, i) && Approved(c, i) && CurrentSnapshot(c) != c.decisions[i].snapshot
  }

  /** Any other transition follows the table, here read by its targets, and changes the status alone. */
  lemma TransitionOutcomes(hash: Hasher, c: Case, target: ShipmentStatus)
    requires target != Dispatched
    ensures Transition(hash, c, target) ==
            if c.status in EnteredFrom(target) then (c.(status := target), Done) else (c, Refused(InvalidTransition))
  {
    EnteredFromTable(c.status, target);
  }

  /**
   * All outcomes of an approval in a reachable state. Whoever asks, changed evidence invalidates
   * the decision before the approver's identity is looked at.
   */
  lemma ApproveOutcomes(hash: Hasher, c: Case, i: nat, actor: UserId)
    requires Separates(hash) && Reachable(hash, c)
    ensures Approve(hash, c, i, actor) ==
            if |c.decisions| <= i then (c, Refused(NotFound))
            else if c.decisions[i].kind != Authorize then (c, Refused(InvalidReleaseDecision))
            else if c.decisions[i].invalidated then (c, Refused(InvalidatedRelease))
            else if c.status != ReleasePendingApproval then (c, Refused(InvalidReleaseState))
            else if CurrentSnapshot(c) != c.decisions[i].snapshot
            then (Withdrawn(c, i), Refused(InvalidatedRelease))
            else if c.decisions[i].decidedBy == actor then (c, Refused(FourEyesRequired))
            else if Approval(i, actor) in c.approvals then (c, Refused(DuplicateApproval))
            else (c.(status := ReleaseAuthorized, approvals := c.approvals + [Approval(i, actor)]), Done)
  {
    ReachableKeepsInv(hash, c);
    if i < |c.decisions| { HashTellsEvidence(hash, c, i); }
  }

  /**
   * All outcomes of a decision in a reachable state: numbered by its place, pinning the evidence
   * as it is; AUTHORIZE needs a policy and clear rows, and only a hold opens an item.
   */
  lemma DecideOutcomes(hash: Hasher, c: Case, kind: DecisionKind, actor: UserId, policyPublished: bool)
    requires Reachable(hash, c)
    ensures var row := Decision(
              kind, |c.decisions| + 1, CurrentSnapshot(c), hash(CurrentSnapshot(c)), actor, false);
            Decide(hash, c, kind, actor, policyPublished) ==
            match kind
            case UnknownDecision => (c, Refused(ValidationError))
            case Authorize =>
              if !policyPublished then (c, Refused(PolicyConfiguration))
              else if !EvidenceClear(c) then (c, Refused(ReviewIsRequired))
              else (c.(status := ReleasePendingApproval, decisions := c.decisions + [row]), Done)
            case PlaceHold =>
              (c.(status := Hold, decisions := c.decisions + [row], tasks := c.tasks + [Open]), Done)
            case RequireReview =>
              (c.(status := Hold, decisions := c.decisions + [row]), Done)
  {
    ReachableKeepsInv(hash, c);
    forall i | 0 <= i < |c.decisions| ensures c.decisions[i].sequence == i + 1 { assert DecisionSound(hash, c, i); }
    MaxSequenceCounts(c.decisions);
    AuthorizeCondition(hash, c, actor);
  }

  /**
   * What a saved reference leaves in a reachable state: the next version, one check that decides
   * for its type, the newest live decision invalidated, and no pending or authorized release.
   */
  lemma SaveOutcomes(hash: Hasher, c: Case, contentHash: string, findings: bool)
    requires Reachable(hash, c)
    ensures var (saved, outcome) := SaveReference(c, contentHash, findings);
            var version := CurrentRank(c) + 1;
            && outcome == Done
            && saved.reference == Some(Reference(version, Some(contentHash)))
            && saved.checks == c.checks +
                 [Check("TRUSTED_REFERENCE", if findings then "HOLD" else "CLEAR", Some(Digits.Decimal(version)))]
            && saved.tasks == c.tasks && saved.evaluations == c.evaluations && saved.incidents == c.incidents
            && saved.approvals == c.approvals && |saved.decisions| == |c.decisions|
            && (forall i :: 0 <= i < |c.decisions| ==>
                 saved.decisions[i] ==
                   if NewestLive(c.decisions, i) then c.decisions[i].(invalidated := true) else c.decisions[i])
            && saved.status == (if c.status in {ReleasePendingApproval, ReleaseAuthorized} then ReleaseInvalidated
                                else c.status)
  {
    ReachableKeepsInv(hash, c);
    forall i: nat ensures NewestLive(c.decisions, i) <==> LatestLive(c.decisions) == Some(i) {
      NewestIsLatest(c.decisions, i);
    }
  }

  /** A work item's change is all there is, unless it resolves the last one of a shipment that waits for review. */
  lemma UpdateTaskOutcome(c: Case, task: nat, status: TaskStatus)
    ensures UpdateTask(c, task, status) ==
            if |c.tasks| <= task then (c, Refused(NotFound))
            else if c.status == DocumentsRequired && status == Resolved
                 && forall j :: 0 <= j < |c.tasks| && j != task ==> c.tasks[j] == Resolved
            then (c.(tasks := c.tasks[task := status], status := ReviewRequired), Done)
            else (c.(tasks := c.tasks[task := status]), Done)
  {
    if task < |c.tasks| {
      var tasks := c.tasks[task := status];
      NoOpenTasks(tasks);
      if forall t :: t in tasks ==> t == Resolved {
        assert tasks[task] in tasks;
        forall j | 0 <= j < |c.tasks| && j != task ensures c.tasks[j] == Resolved { assert tasks[j] in tasks; }
      }
    }
  }

  // ---------------------------------------------------------------------------------------------
  // Which decisions are invalidated
  // ---------------------------------------------------------------------------------------------

  /** The step invalidates decision `i`: evidence it pinned has changed, or its reference is replaced. */
  predicate Stamps(c: Case, a: Action, i: nat) {
    && i < |c.decisions| && c.decisions[i].kind == Authorize && !c.decisions[i].invalidated
    && match a
       case SaveTrustedReference(_, _) => NewestLive(c.decisions, i)
       case ApproveRelease(d, _) =>
         d == i && c.status == ReleasePendingApproval && CurrentSnapshot(c) != c.decisions[i].snapshot
       case TransitionShipment(target) =>
         && target == Dispatched && c.status == ReleaseAuthorized && NewestLive(c.decisions, i)
         && Approved(c, i) && CurrentSnapshot(c) != c.decisions[i].snapshot
       case _ => false
  }

  lemma StampedByStep(hash: Hasher, c: Case, a: Action, i: nat)
    requires Separates(hash) && Reachable(hash, c) && i < |Apply(hash, c, a).0.decisions|
    ensures Apply(hash, c, a).0.decisions[i].invalidated <==>
            i < |c.decisions| && (c.decisions[i].invalidated || Stamps(c, a, i))
  {
    match a
    case DecideRelease(kind, actor, policyPublished) =>
    case ApproveRelease(d, actor) => ApproveOutcomes(hash, c, d, actor);
    case SaveTrustedReference(contentHash, findings) => NewestIsLatest(c.decisions, i);
    case TransitionShipment(target) =>
      if target == Dispatched { DispatchOutcomes(hash, c); }
    case _ =>
  }

  lemma StepKeepsPlaces(hash: Hasher, c: Case, a: Action)
    ensures |c.decisions| <= |Apply(hash, c, a).0.decisions|
  {
    if c.decisions != [] { PinsAreKept(hash, c, a, |c.decisions| - 1); }
  }

  /** Some step of the run invalidates decision `i`. */
  predicate StampedIn(hash: Hasher, c: Case, run: seq<Action>, i: nat) {
    run != [] &&
    var before := run[..|run| - 1];
    StampedIn(hash, c, before, i) || Stamps(Execute(hash, c, before), run[|run| - 1], i)
  }

  lemma {:induction false} StampedPlace(hash: Hasher, c: Case, run: seq<Action>, i: nat)
    requires StampedIn(hash, c, run, i)
    ensures i < |Execute(hash, c, run).decisions|
  {
    var before, a := run[..|run| - 1], run[|run| - 1];
    StepKeepsPlaces(hash, Execute(hash, c, before), a);
    if StampedIn(hash, c, before, i) { StampedPlace(hash, c, before, i); }
  }

  /**
   * After every run a decision is invalidated exactly when some step of it invalidated the
   * decision: a dispatch or an approval refused over changed evidence, or a saved reference.
   */
  lemma {:induction false} InvalidatedIff(hash: Hasher, created: Case, run: seq<Action>, i: nat)
    requires Separates(hash) && Created(created) && i < |Execute(hash, created, run).decisions|
    ensures Execute(hash, created, run).decisions[i].invalidated <==> StampedIn(hash, created, run, i)
  {
    if run != [] {
      var before, a := run[..|run| - 1], run[|run| - 1];
      var c := Execute(hash, created, before);
      StampedByStep(hash, c, a, i);
      if i < |c.decisions| {
        InvalidatedIff(hash, created, before, i);
      } else if StampedIn(hash, created, before, i) {
        StampedPlace(hash, created, before, i);
      }
    }
  }

  lemma StampStays(hash: Hasher, c: Case, a: Action, i: nat)
    requires i < |c.decisions| && c.decisions[i].invalidated
    ensures i < |Apply(hash, c, a).0.decisions| && Apply(hash, c, a).0.decisions[i].invalidated
  {
    match a
    case DecideRelease(kind, actor, policyPublished) => DecideAppends(hash, c, kind, actor, policyPublished);
    case ApproveRelease(d, actor) =>
    case SaveTrustedReference(contentHash, findings) =>
    case TransitionShipment(target) =>
    case _ =>
  }

  lemma {:induction false} StampStaysForever(hash: Hasher, c: Case, run: seq<Action>, i: nat)
    requires i < |c.decisions| && c.decisions[i].invalidated
    ensures i < |Execute(hash, c, run).decisions| && Execute(hash, c, run).decisions[i].invalidated
  {
    if run != [] {
      StampStaysForever(hash, c, run[..|run| - 1], i);
      StampStays(hash, Execute(hash, c, run[..|run| - 1]), run[|run| - 1], i);
    }
  }

  /**
   * A decision that a dispatch or an approval was refused over, or that a saved reference met as
   * the newest live one, is never approved, relied on or justifying again, although every row of
   * evidence may return to what it was.
   */
  lemma RefusedDecisionIsSpent(
      hash: Hasher, created: Case, before: seq<Action>, a: Action, after: seq<Action>, i: nat, approver: UserId)
    requires Separates(hash) && Created(created)
    requires Stamps(Execute(hash, created, before), a, i)
    ensures var c := Execute(hash, Apply(hash, Execute(hash, created, before), a).0, after);
            && Approve(hash, c, i, approver).1 in {Refused(InvalidatedRelease), Refused(InvalidReleaseDecision)}
            && Approve(hash, c, i, approver).0 == c
            && !NewestLive(c.decisions, i) && !Justifies(c, i)
  {
    var c := Execute(hash, created, before);
    RunsKeepInv(hash, created, before);
    StepKeepsPlaces(hash, c, a);
    StampedByStep(hash, c, a, i);
    StampStaysForever(hash, Apply(hash, c, a).0, after, i);
  }

  // ---------------------------------------------------------------------------------------------
  // When evidence counts as changed
  // ---------------------------------------------------------------------------------------------

  function OpenRows(tasks: seq<TaskStatus>): set<nat> {
    set i: nat | i < |tasks| && tasks[i] != Resolved
  }

  predicate Lacking(e: Evaluation, name: string) {
    && e.name == name && e.requirementStatus in {"REQUIRED", "ACTIVE"}
    && e.result !in {"PROVIDED", "CLEAR", "NOT_APPLICABLE"}
  }

  function LackingRows(evaluations: seq<Evaluation>, name: string): set<nat> {
    set i: nat | i < |evaluations| && Lacking(evaluations[i], name)
  }

  predicate Standing(x: Incident, summary: string) {
    && x.summary == summary && x.severity in {"HIGH", "CRITICAL"} && x.status !in {"RESOLVED", "CANCELLED"}
  }

  function StandingRows(incidents: seq<Incident>, summary: string): set<nat> {
    set i: nat | i < |incidents| && Standing(incidents[i], summary)
  }

  lemma {:induction false} OpenTasksCounted(tasks: seq<TaskStatus>)
    ensures OpenTasks(tasks) == |OpenRows(tasks)|
  {
    if tasks == [] {
      assert OpenRows(tasks) == {};
    } else {
      var last := |tasks| - 1;
      OpenTasksCounted(tasks[..last]);
      assert OpenRows(tasks) == OpenRows(tasks[..last]) + if tasks[last] != Resolved then {last} else {};
    }
  }

  lemma LackingIsMissing(e: Evaluation, name: string)
    ensures Lacking(e, name) <==> Missing(e) && e.name == name
  {
  }

  lemma LackingRowsGrow(evaluations: seq<Evaluation>, e: Evaluation, name: string)
    ensures |LackingRows(evaluations + [e], name)| ==
            |LackingRows(evaluations, name)| + if Missing(e) && e.name == name then 1 else 0
  {
    LackingIsMissing(e, name);
    var last, all := |evaluations|, evaluations + [e];
    assert all[last] == e && forall i :: 0 <= i < last ==> all[i] == evaluations[i];
    assert LackingRows(all, name) == LackingRows(evaluations, name) + if Lacking(e, name) then {last} else {};
  }

  lemma {:induction false} MissingCounted(evaluations: seq<Evaluation>, name: string)
    ensures multiset(MissingRequirements(evaluations))[name] == |LackingRows(evaluations, name)|
  {
    if evaluations == [] {
      assert LackingRows(evaluations, name) == {};
    } else {
      var rest, e := evaluations[..|evaluations| - 1], evaluations[|evaluations| - 1];
      MissingCounted(rest, name);
      LackingRowsGrow(rest, e, name);
      assert evaluations == rest + [e];
    }
  }

  lemma StandingIsBlocker(x: Incident, summary: string)
    ensures Standing(x, summary) <==> OpenBlocker(x) && x.summary == summary
  {
  }

  lemma StandingRowsGrow(incidents: seq<Incident>, x: Incident, summary: string)
    ensures |StandingRows(incidents + [x], summary)| ==
            |StandingRows(incidents, summary)| + if OpenBlocker(x) && x.summary == summary then 1 else 0
  {
    StandingIsBlocker(x, summary);
    var last, all := |incidents|, incidents + [x];
    assert all[last] == x && forall i :: 0 <= i < last ==> all[i] == incidents[i];
    assert StandingRows(all, summary) == StandingRows(incidents, summary) + if Standing(x, summary) then {last} else {};
  }

  lemma {:induction false} BlockingIncidentsCounted(incidents: seq<Incident>, summary: string)
    ensures multiset(BlockingIncidents(incidents))[summary] == |StandingRows(incidents, summary)|
  {
    if incidents == [] {
      assert StandingRows(incidents, summary) == {};
    } else {
      var rest, x := incidents[..|incidents| - 1], incidents[|incidents| - 1];
      BlockingIncidentsCounted(rest, summary);
      StandingRowsGrow(rest, x, summary);
      assert incidents == rest + [x];
    }
  }

  lemma {:induction false} BlockingChecksCounted(checks: seq<Check>, t: string)
    ensures multiset(BlockingChecks(checks))[t] ==
            if t in LatestChecks(checks) && Blocking(LatestChecks(checks)[t]) then 1 else 0
  {
    if checks != [] {
      BlockingChecksCounted(checks[1..], t);
    }
  }

  lemma {:induction false} NewestRow(checks: seq<Check>, t: string) returns (i: nat)
    requires exists j :: 0 <= j < |checks| && checks[j].checkType == t
    ensures i < |checks| && checks[i].checkType == t && LatestOfType(checks, i)
  {
    i := |checks| - 1;
    if checks[i].checkType != t {
      i := NewestRow(checks[..i], t);
    }
  }

  predicate SameEntry(x: Check, y: Check) {
    x.checkType == y.checkType && x.status == y.status && x.sourceVersion == y.sourceVersion
  }

  /** Each newest check of its type in one list has a newest one like it in the other. */
  predicate NewestCovered(a: seq<Check>, b: seq<Check>) {
    forall i :: 0 <= i < |a| && LatestOfType(a, i) ==>
      exists j :: 0 <= j < |b| && LatestOfType(b, j) && SameEntry(a[i], b[j])
  }

  /** Each type's latest check in one list has the same entry in the other. */
  predicate EntriesCovered(a: seq<Check>, b: seq<Check>) {
    forall t :: t in LatestChecks(a) ==> t in LatestChecks(b) && SameEntry(LatestChecks(a)[t], LatestChecks(b)[t])
  }

  lemma {:induction false} LatestChecksKeepTypes(checks: seq<Check>, t: string)
    requires t in LatestChecks(checks)
    ensures LatestChecks(checks)[t].checkType == t
  {
    if t in LatestChecks(checks[1..]) { LatestChecksKeepTypes(checks[1..], t); }
  }

  lemma CoveredEntries(a: seq<Check>, b: seq<Check>)
    requires NewestCovered(a, b)
    ensures EntriesCovered(a, b)
  {
    forall t | t in LatestChecks(a)
      ensures t in LatestChecks(b) && SameEntry(LatestChecks(a)[t], LatestChecks(b)[t])
    {
      LatestChecksCoverTypes(a, t);
      var i := NewestRow(a, t);
      LatestChecksAreLatest(a, i);
      var j :| 0 <= j < |b| && LatestOfType(b, j) && SameEntry(a[i], b[j]);
      LatestChecksAreLatest(b, j);
    }
  }

  lemma EntriesCover(a: seq<Check>, b: seq<Check>)
    requires EntriesCovered(a, b)
    ensures NewestCovered(a, b)
  {
    forall i | 0 <= i < |a| && LatestOfType(a, i)
      ensures exists j :: 0 <= j < |b| && LatestOfType(b, j) && SameEntry(a[i], b[j])
    {
      LatestChecksAreLatest(a, i);
      LatestChecksCoverTypes(b, a[i].checkType);
      var j := NewestRow(b, a[i].checkType);
      LatestChecksAreLatest(b, j);
      assert SameEntry(a[i], b[j]);
    }
  }

  /** Row by row, what a decision's evidence hash tells apart. */
  ghost predicate SameEvidence(c: Case, d: Case) {
    && |OpenRows(c.tasks)| == |OpenRows(d.tasks)|
    && (forall name :: |LackingRows(c.evaluations, name)| == |LackingRows(d.evaluations, name)|)
    && (forall summary :: |StandingRows(c.incidents, summary)| == |StandingRows(d.incidents, summary)|)
    && NewestCovered(c.checks, d.checks) && NewestCovered(d.checks, c.checks)
    && c.reference == d.reference
  }

  lemma EvidenceAgrees(c: Case, d: Case)
    ensures CurrentSnapshot(c) == CurrentSnapshot(d) <==>
            && multiset(MissingRequirements(c.evaluations)) == multiset(MissingRequirements(d.evaluations))
            && multiset(BlockingChecks(c.checks)) == multiset(BlockingChecks(d.checks))
            && multiset(BlockingIncidents(c.incidents)) == multiset(BlockingIncidents(d.incidents))
            && OpenTasks(c.tasks) == OpenTasks(d.tasks) && c.reference == d.reference
            && AssuranceVersions(LatestChecks(c.checks)) == AssuranceVersions(LatestChecks(d.checks))
  {
    SnapshotHashInjective(CurrentSnapshot(c), CurrentSnapshot(d));
    ReleaseHashCanonical(GatherEvidence(c), GatherEvidence(d));
  }

  lemma SameBlockingChecks(a: seq<Check>, b: seq<Check>)
    requires AssuranceVersions(LatestChecks(a)) == AssuranceVersions(LatestChecks(b))
    ensures multiset(BlockingChecks(a)) == multiset(BlockingChecks(b))
  {
    forall t ensures multiset(BlockingChecks(a))[t] == multiset(BlockingChecks(b))[t] {
      BlockingChecksCounted(a, t);
      BlockingChecksCounted(b, t);
      assert t in LatestChecks(a) <==> t in AssuranceVersions(LatestChecks(a));
      assert t in LatestChecks(b) <==> t in AssuranceVersions(LatestChecks(b));
      if t in LatestChecks(a) {
        assert AssuranceVersions(LatestChecks(a))[t].0 == AssuranceVersions(LatestChecks(b))[t].0;
      }
    }
  }

  lemma SameMultiset(a: seq<string>, b: seq<string>)
    ensures multiset(a) == multiset(b) <==> forall x :: multiset(a)[x] == multiset(b)[x]
  {
  }

  lemma SameAssuranceIff(a: seq<Check>, b: seq<Check>)
    ensures AssuranceVersions(LatestChecks(a)) == AssuranceVersions(LatestChecks(b)) <==>
            EntriesCovered(a, b) && EntriesCovered(b, a)
  {
    var v, w := AssuranceVersions(LatestChecks(a)), AssuranceVersions(LatestChecks(b));
    if v == w {
      forall t ensures t in LatestChecks(a) <==> t in LatestChecks(b) { assert t in v <==> t in w; }
      forall t | t in LatestChecks(a) ensures SameEntry(LatestChecks(a)[t], LatestChecks(b)[t]) {
        assert v[t] == w[t];
        LatestChecksKeepTypes(a, t);
        LatestChecksKeepTypes(b, t);
      }
    }
  }

  /**
   * Evidence counts as changed exactly when the number of open items changed, the missing
   * requirements of some name, the blocking exceptions of some summary, the newest check of some
   * type in status or source version, or the reference. The list of blocking checks in the hash
   * adds nothing to that.
   */
  lemma SnapshotUnchangedIff(c: Case, d: Case)
    ensures CurrentSnapshot(c) == CurrentSnapshot(d) <==> SameEvidence(c, d)
  {
    EvidenceAgrees(c, d);
    forall name
      ensures multiset(MissingRequirements(c.evaluations))[name] == |LackingRows(c.evaluations, name)|
      ensures multiset(MissingRequirements(d.evaluations))[name] == |LackingRows(d.evaluations, name)|
    {
      MissingCounted(c.evaluations, name);
      MissingCounted(d.evaluations, name);
    }
    forall summary
      ensures multiset(BlockingIncidents(c.incidents))[summary] == |StandingRows(c.incidents, summary)|
      ensures multiset(BlockingIncidents(d.incidents))[summary] == |StandingRows(d.incidents, summary)|
    {
      BlockingIncidentsCounted(c.incidents, summary);
      BlockingIncidentsCounted(d.incidents, summary);
    }
    SameMultiset(MissingRequirements(c.evaluations), MissingRequirements(d.evaluations));
    SameMultiset(BlockingIncidents(c.incidents), BlockingIncidents(d.incidents));
    OpenTasksCounted(c.tasks);
    OpenTasksCounted(d.tasks);
    SameAssuranceIff(c.checks, d.checks);
    if SameEvidence(c, d) {
      CoveredEntries(c.checks, d.checks);
      CoveredEntries(d.checks, c.checks);
      SameBlockingChecks(c.checks, d.checks);
    }
    if CurrentSnapshot(c) == CurrentSnapshot(d) {
      EntriesCover(c.checks, d.checks);
      EntriesCover(d.checks, c.checks);
    }
  }
}
