/**
 * The release protocol of one shipment as a transition system: each repository method is one
 * atomic step on the shipment's rows.
 */
module ReleaseProtocol {
  import opened Wrappers
  import opened Assurance
  import opened ReleaseIntegrity
  import Digits

  type UserId = string

  datatype TaskStatus = Open | InProgress | Resolved

  /** A requirement evaluation joined with the requirement it evaluates. */
  datatype Evaluation = Evaluation(name: string, requirementStatus: string, result: string)

  datatype Check = Check(checkType: string, status: string, sourceVersion: Option<string>)

  datatype Incident = Incident(summary: string, severity: string, status: string)

  datatype Reference = Reference(version: nat, contentHash: Option<string>)

  /** The requested decision; any other text is `UnknownDecision`. */
  datatype DecisionKind = Authorize | PlaceHold | RequireReview | UnknownDecision

  datatype Decision = Decision(
    kind: DecisionKind,
    sequence: nat,
    snapshot: Snapshot,
    evidenceHash: Digest,
    decidedBy: UserId,
    invalidated: bool)

  /** A second approval; `decision` is the position of the approved row. */
  datatype Approval = Approval(decision: nat, approver: UserId)

  /** One shipment's rows. Every list is in order of creation. */
  datatype Case = Case(
    status: ShipmentStatus,
    tasks: seq<TaskStatus>,
    evaluations: seq<Evaluation>,
    checks: seq<Check>,
    incidents: seq<Incident>,
    reference: Option<Reference>,
    decisions: seq<Decision>,
    approvals: seq<Approval>)

  datatype Error =
    | NotFound | ValidationError | PolicyConfiguration | ReviewIsRequired | InvalidReleaseDecision
    | InvalidatedRelease | InvalidReleaseState | FourEyesRequired | DuplicateApproval | InvalidTransition

  datatype Outcome = Done | Refused(error: Error)

  /** How a snapshot becomes the evidence hash a decision stores. */
  type Hasher = Snapshot -> Digest

  /** What the protocol needs of its hash; `SnapshotHash` has it (`SnapshotHashSeparates`). */
  ghost predicate Separates(hash: Hasher) {
    forall s, t :: hash(s) == hash(t) ==> s == t
  }

  lemma SnapshotHashSeparates()
    ensures Separates(SnapshotHash)
  {
    forall s, t | SnapshotHash(s) == SnapshotHash(t) ensures s == t {
      SnapshotHashInjective(s, t);
    }
  }

  // ---------------------------------------------------------------------------------------------
  // Evidence
  // ---------------------------------------------------------------------------------------------

  function OpenTasks(tasks: seq<TaskStatus>): nat {
    if tasks == [] then 0
    else OpenTasks(tasks[..|tasks| - 1]) + if tasks[|tasks| - 1] != Resolved then 1 else 0
  }

  predicate Missing(e: Evaluation) {
    e.requirementStatus in {"REQUIRED", "ACTIVE"} && e.result !in {"PROVIDED", "CLEAR", "NOT_APPLICABLE"}
  }

  function MissingRequirements(evaluations: seq<Evaluation>): seq<string> {
    if evaluations == [] then []
    else
      var last := evaluations[|evaluations| - 1];
      MissingRequirements(evaluations[..|evaluations| - 1]) + if Missing(last) then [last.name] else []
  }

  predicate Blocking(c: Check) {
    c.status in {"HOLD", "REVIEW", "PENDING", "RUNNING", "FAILED"}
  }

  /** Reading newest first, the first check of each type wins. */
  function LatestChecks(checks: seq<Check>): map<string, Check> {
    if checks == [] then map[]
    else
      var newer := LatestChecks(checks[1..]);
      if checks[0].checkType in newer then newer else newer[checks[0].checkType := checks[0]]
  }

  /** Types of the blocking latest checks, in the order the newest-first scan meets them. */
  function BlockingChecks(checks: seq<Check>): seq<string> {
    if checks == [] then []
    else
      BlockingChecks(checks[1..]) +
      if checks[0].checkType !in LatestChecks(checks[1..]) && Blocking(checks[0]) then [checks[0].checkType] else []
  }

  predicate OpenBlocker(i: Incident) {
    i.status !in {"RESOLVED", "CANCELLED"} && i.severity in {"HIGH", "CRITICAL"}
  }

  function BlockingIncidents(incidents: seq<Incident>): seq<string> {
    if incidents == [] then []
    else
      var last := incidents[|incidents| - 1];
      BlockingIncidents(incidents[..|incidents| - 1]) + if OpenBlocker(last) then [last.summary] else []
  }

  function AssuranceVersions(latest: map<string, Check>): map<string, (string, Option<string>)> {
    map t | t in latest :: (latest[t].status, latest[t].sourceVersion)
  }

  function GatherEvidence(c: Case): Evidence {
    Evidence(
      MissingRequirements(c.evaluations),
      BlockingChecks(c.checks),
      BlockingIncidents(c.incidents),
      OpenTasks(c.tasks),
      if c.reference.Some? then Some(c.reference.value.version) else None,
      if c.reference.Some? then c.reference.value.contentHash else None,
      AssuranceVersions(LatestChecks(c.checks)))
  }

  function CurrentSnapshot(c: Case): Snapshot {
    BuildReleaseSnapshot(GatherEvidence(c))
  }

  // ---------------------------------------------------------------------------------------------
  // Steps
  // ---------------------------------------------------------------------------------------------

  predicate Live(d: Decision) {
    d.kind == Authorize && !d.invalidated
  }

  /** Position of the newest AUTHORIZE decision that is not invalidated. */
  function LatestLive(ds: seq<Decision>): (r: Option<nat>)
    ensures r.Some? ==> r.value < |ds| && Live(ds[r.value]) && forall j :: r.value < j < |ds| ==> !Live(ds[j])
    ensures r.None? ==> forall j :: 0 <= j < |ds| ==> !Live(ds[j])
  {
    if ds == [] then None
    else if Live(ds[|ds| - 1]) then Some(|ds| - 1)
    else LatestLive(ds[..|ds| - 1])
  }

  function MaxSequence(ds: seq<Decision>): nat {
    if ds == [] then 0
    else
      var m := MaxSequence(ds[..|ds| - 1]);
      if ds[|ds| - 1].sequence > m then ds[|ds| - 1].sequence else m
  }

  predicate SecondApproved(c: Case, i: nat)
    requires i < |c.decisions|
  {
    exists k :: 0 <= k < |c.approvals| && c.approvals[k].decision == i
                && c.approvals[k].approver != c.decisions[i].decidedBy
  }

  function Invalidate(ds: seq<Decision>, i: nat): seq<Decision>
    requires i < |ds|
  {
    ds[i := ds[i].(invalidated := true)]
  }

  predicate Blocked(e: Evidence) {
    e.openTasks > 0 || e.missingRequirements != [] || e.blockingChecks != [] || e.blockingExceptions != []
  }

  function Decide(hash: Hasher, c: Case, kind: DecisionKind, actor: UserId, policyPublished: bool): (Case, Outcome) {
    var evidence := GatherEvidence(c);
    if kind == UnknownDecision then (c, Refused(ValidationError))
    else if !policyPublished && kind == Authorize then (c, Refused(PolicyConfiguration))
    else if kind == Authorize && Blocked(evidence) then (c, Refused(ReviewIsRequired))
    else
      var snapshot := BuildReleaseSnapshot(evidence);
      (c.(status := if kind == Authorize then ReleasePendingApproval else Hold,
          decisions := c.decisions +
            [Decision(kind, MaxSequence(c.decisions) + 1, snapshot, hash(snapshot), actor, false)],
          tasks := if kind == PlaceHold then c.tasks + [Open] else c.tasks), Done)
  }

  function Approve(hash: Hasher, c: Case, i: nat, actor: UserId): (Case, Outcome) {
    if i >= |c.decisions| then (c, Refused(NotFound))
    else if c.decisions[i].kind != Authorize then (c, Refused(InvalidReleaseDecision))
    else if c.decisions[i].invalidated then (c, Refused(InvalidatedRelease))
    else if c.status != ReleasePendingApproval then (c, Refused(InvalidReleaseState))
    else if hash(CurrentSnapshot(c)) != c.decisions[i].evidenceHash then
      (c.(decisions := Invalidate(c.decisions, i), status := ReleaseInvalidated), Refused(InvalidatedRelease))
    else if c.decisions[i].decidedBy == actor then (c, Refused(FourEyesRequired))
    else if Approval(i, actor) in c.approvals then (c, Refused(DuplicateApproval))
    else (c.(approvals := c.approvals + [Approval(i, actor)], status := ReleaseAuthorized), Done)
  }

  const TRUSTED_REFERENCE: string := "TRUSTED_REFERENCE"

  /** A version of zero counts as one before it is increased. */
  function NextReference(reference: Option<Reference>, contentHash: string): Reference {
    match reference
    case None => Reference(1, Some(contentHash))
    case Some(r) => Reference((if r.version == 0 then 1 else r.version) + 1, Some(contentHash))
  }

  function SaveReference(c: Case, contentHash: string, findings: bool): (Case, Outcome) {
    var reference := NextReference(c.reference, contentHash);
    var check := Check(TRUSTED_REFERENCE, if findings then "HOLD" else "CLEAR",
        Some(Digits.Decimal(reference.version)));
    var saved := c.(reference := Some(reference), checks := c.checks + [check]);
    match LatestLive(c.decisions)
    case None => (saved, Done)
    case Some(i) =>
      (saved.(decisions := Invalidate(c.decisions, i),
              status := if c.status in {ReleasePendingApproval, ReleaseAuthorized} then ReleaseInvalidated
                        else c.status), Done)
  }

  function Transition(hash: Hasher, c: Case, target: ShipmentStatus): (Case, Outcome) {
    if !CanTransition(c.status, target) then (c, Refused(InvalidTransition))
    else if target == Dispatched then
      match LatestLive(c.decisions)
      case None => (c, Refused(FourEyesRequired))
      case Some(i) =>
        if c.status != ReleaseAuthorized || !SecondApproved(c, i) then (c, Refused(FourEyesRequired))
        else if hash(CurrentSnapshot(c)) != c.decisions[i].evidenceHash then
          (c.(decisions := Invalidate(c.decisions, i), status := ReleaseInvalidated), Refused(InvalidatedRelease))
        else (c.(status := Dispatched), Done)
    else (c.(status := target), Done)
  }

  function UpdateTask(c: Case, task: nat, status: TaskStatus): (Case, Outcome) {
    if task >= |c.tasks| then (c, Refused(NotFound))
    else
      var tasks := c.tasks[task := status];
      (c.(tasks := tasks,
          status := if OpenTasks(tasks) == 0 && c.status in {DocumentsRequired, ReviewRequired} then ReviewRequired
                    else c.status), Done)
  }

  datatype Action =
    | DecideRelease(kind: DecisionKind, actor: UserId, policyPublished: bool)
    | ApproveRelease(decision: nat, approver: UserId)
    | SaveTrustedReference(contentHash: string, findings: bool)
    | TransitionShipment(target: ShipmentStatus)
    | UpdateWorkTask(task: nat, taskStatus: TaskStatus)
      // an assessment or a document check writes one of its three statuses
    | Assess(assessing: bool, hold: bool)
      // any other writer leaves whatever task, requirement, check and exception rows it likes
    | RewriteEvidence(tasks: seq<TaskStatus>, evaluations: seq<Evaluation>, checks: seq<Check>,
        incidents: seq<Incident>)

  function Apply(hash: Hasher, c: Case, a: Action): (Case, Outcome) {
    match a
    case DecideRelease(kind, actor, policyPublished) => Decide(hash, c, kind, actor, policyPublished)
    case ApproveRelease(i, actor) => Approve(hash, c, i, actor)
    case SaveTrustedReference(contentHash, findings) => SaveReference(c, contentHash, findings)
    case TransitionShipment(target) => Transition(hash, c, target)
    case UpdateWorkTask(task, status) => UpdateTask(c, task, status)
    case Assess(assessing, hold) =>
      (c.(status := if assessing then Assessing else if hold then Hold else ReviewRequired), Done)
    case RewriteEvidence(tasks, evaluations, checks, incidents) =>
      (c.(tasks := tasks, evaluations := evaluations, checks := checks, incidents := incidents), Done)
  }

  function Execute(hash: Hasher, c: Case, run: seq<Action>): Case {
    if run == [] then c
    else Apply(hash, Execute(hash, c, run[..|run| - 1]), run[|run| - 1]).0
  }

  /** The rows `create_shipment` commits, over the evaluations its policy asks for. */
  ghost predicate Created(c: Case) {
    && c.status == DocumentsRequired
    && c.tasks == [Open]
    && (exists version :: c.checks == [Check("REQUIREMENTS", "REVIEW", Some(version))])
    && c.incidents == []
    && c.reference == Some(Reference(1, None))
    && c.decisions == [] && c.approvals == []
  }
}
