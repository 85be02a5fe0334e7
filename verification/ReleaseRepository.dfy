/** The repository methods that move a shipment towards dispatch, on rows updated in place. */
module ReleaseRepository {
  import opened Wrappers
  import opened Assurance
  import opened ReleaseIntegrity
  import opened ReleaseProtocol
  import E = ReleaseEffects
  import Digits

  /** The rows with one more decision. */
  function WithDecision(hash: Hasher, c: Case, kind: DecisionKind, snapshot: Snapshot, actor: UserId): Case {
    c.(status := if kind == Authorize then ReleasePendingApproval else Hold,
       decisions := c.decisions +
         [Decision(kind, MaxSequence(c.decisions) + 1, snapshot, hash(snapshot), actor, false)],
       tasks := if kind == PlaceHold then c.tasks + [Open] else c.tasks)
  }

  lemma DecideRecords(hash: Hasher, c: Case, kind: DecisionKind, actor: UserId, policyPublished: bool)
    requires kind != UnknownDecision
    requires kind == Authorize ==> policyPublished && !Blocked(GatherEvidence(c))
    ensures Decide(hash, c, kind, actor, policyPublished) ==
            (WithDecision(hash, c, kind, BuildReleaseSnapshot(GatherEvidence(c)), actor), Done)
  {
  }

  class ShipmentRows {
    const hash: Hasher
    var status: ShipmentStatus
    var tasks: seq<TaskStatus>
    var evaluations: seq<Evaluation>
    var checks: seq<Check>
    var incidents: seq<Incident>
    var reference: Option<Reference>
    var decisions: seq<Decision>
    var approvals: seq<Approval>

    function View(): Case
      reads this
    {
      Case(status, tasks, evaluations, checks, incidents, reference, decisions, approvals)
    }

    /** `create_shipment`: an open task, a requirements check in review, version 1 of the reference. */
    constructor (hash: Hasher, evaluations: seq<Evaluation>, policyVersion: string)
      ensures Created(View()) && this.evaluations == evaluations && this.hash == hash
    {
      this.hash := hash;
      status := DocumentsRequired;
      tasks := [Open];
      this.evaluations := evaluations;
      checks := [Check("REQUIREMENTS", "REVIEW", Some(policyVersion))];
      incidents := [];
      reference := Some(Reference(1, None));
      decisions := [];
      approvals := [];
      new;
      assert checks == [Check("REQUIREMENTS", "REVIEW", Some(policyVersion))];
    }

    method CountOpenTasks() returns (count: nat)
      ensures count == OpenTasks(tasks)
    {
      count := 0;
      for i := 0 to |tasks|
        invariant count == OpenTasks(tasks[..i])
      {
        assert tasks[..i + 1][..i] == tasks[..i];
        if tasks[i] != Resolved {
          count := count + 1;
        }
      }
      assert tasks[..|tasks|] == tasks;
    }

    method CollectMissing() returns (names: seq<string>)
      ensures names == MissingRequirements(evaluations)
    {
      names := [];
      for i := 0 to |evaluations|
        invariant names == MissingRequirements(evaluations[..i])
      {
        assert evaluations[..i + 1][..i] == evaluations[..i];
        if Missing(evaluations[i]) {
          names := names + [evaluations[i].name];
        }
      }
      assert evaluations[..|evaluations|] == evaluations;
    }

    /** Newest first: the first check met of a type is the latest one. */
    method ScanChecks() returns (latest: map<string, Check>, blocking: seq<string>)
      ensures latest == LatestChecks(checks) && blocking == BlockingChecks(checks)
    {
      latest, blocking := map[], [];
      for i := |checks| downto 0
        invariant latest == LatestChecks(checks[i..]) && blocking == BlockingChecks(checks[i..])
      {
        assert checks[i..][1..] == checks[i + 1..];
        if checks[i].checkType !in latest {
          latest := latest[checks[i].checkType := checks[i]];
          if Blocking(checks[i]) {
            blocking := blocking + [checks[i].checkType];
          }
        }
      }
    }

    method CollectBlockingIncidents() returns (summaries: seq<string>)
      ensures summaries == BlockingIncidents(incidents)
    {
      summaries := [];
      for i := 0 to |incidents|
        invariant summaries == BlockingIncidents(incidents[..i])
      {
        assert incidents[..i + 1][..i] == incidents[..i];
        if OpenBlocker(incidents[i]) {
          summaries := summaries + [incidents[i].summary];
        }
      }
      assert incidents[..|incidents|] == incidents;
    }

    method CollectEvidence() returns (e: Evidence)
      ensures e == GatherEvidence(View())
    {
      var openTasks := CountOpenTasks();
      var missing := CollectMissing();
      var latest, blockingChecks := ScanChecks();
      var blockingIncidents := CollectBlockingIncidents();
      e := Evidence(
        missing, blockingChecks, blockingIncidents, openTasks,
        if reference.Some? then Some(reference.value.version) else None,
        if reference.Some? then reference.value.contentHash else None,
        AssuranceVersions(latest));
    }

    method FindLatestLive() returns (r: Option<nat>)
      ensures r == LatestLive(decisions)
    {
      for i := |decisions| downto 0
        invariant LatestLive(decisions) == LatestLive(decisions[..i])
      {
        assert decisions[..i + 1][..i] == decisions[..i];
        if Live(decisions[i]) {
          return Some(i);
        }
      }
      return None;
    }

    method LastSequence() returns (sequence: nat)
      ensures sequence == MaxSequence(decisions)
    {
      sequence := 0;
      for i := 0 to |decisions|
        invariant sequence == MaxSequence(decisions[..i])
      {
        assert decisions[..i + 1][..i] == decisions[..i];
        if decisions[i].sequence > sequence {
          sequence := decisions[i].sequence;
        }
      }
      assert decisions[..|decisions|] == decisions;
    }

    method RecordDecision(kind: DecisionKind, snapshot: Snapshot, actor: UserId)
      modifies this
      ensures View() == WithDecision(hash, old(View()), kind, snapshot, actor)
    {
      status := if kind == Authorize then ReleasePendingApproval else Hold;
      var sequence := LastSequence();
      decisions := decisions + [Decision(kind, sequence + 1, snapshot, hash(snapshot), actor, false)];
      if kind == PlaceHold {
        tasks := tasks + [Open];
      }
    }

    method DecideRelease(kind: DecisionKind, actor: UserId, policyPublished: bool) returns (r: Outcome)
      modifies this
      ensures (View(), r) == Decide(hash, old(View()), kind, actor, policyPublished)
    {
      if kind == UnknownDecision {
        return Refused(ValidationError);
      }
      if !policyPublished && kind == Authorize {
        return Refused(PolicyConfiguration);
      }
      var evidence := CollectEvidence();
      if kind == Authorize && Blocked(evidence) {
        return Refused(ReviewIsRequired);
      }
      DecideRecords(hash, View(), kind, actor, policyPublished);
      RecordDecision(kind, BuildReleaseSnapshot(evidence), actor);
      return Done;
    }

    method ApproveRelease(decision: nat, approver: UserId) returns (r: Outcome)
      modifies this
      ensures (View(), r) == Approve(hash, old(View()), decision, approver)
    {
      if decision >= |decisions| {
        return Refused(NotFound);
      }
      if decisions[decision].kind != Authorize {
        return Refused(InvalidReleaseDecision);
      }
      if decisions[decision].invalidated {
        return Refused(InvalidatedRelease);
      }
      if status != ReleasePendingApproval {
        return Refused(InvalidReleaseState);
      }
      var evidence := CollectEvidence();
      if hash(BuildReleaseSnapshot(evidence)) != decisions[decision].evidenceHash {
        decisions := Invalidate(decisions, decision);
        status := ReleaseInvalidated;
        return Refused(InvalidatedRelease);
      }
      if decisions[decision].decidedBy == approver {
        return Refused(FourEyesRequired);
      }
      if Approval(decision, approver) in approvals {
        return Refused(DuplicateApproval);
      }
      approvals := approvals + [Approval(decision, approver)];
      status := ReleaseAuthorized;
      return Done;
    }

    method SaveTrustedReference(contentHash: string, findings: bool) returns (r: Outcome)
      modifies this
      ensures (View(), r) == SaveReference(old(View()), contentHash, findings)
    {
      var version := match reference
        case None => 1
        case Some(r) => (if r.version == 0 then 1 else r.version) + 1;
      reference := Some(Reference(version, Some(contentHash)));
      checks := checks + [Check(TRUSTED_REFERENCE, if findings then "HOLD" else "CLEAR",
          Some(Digits.Decimal(version)))];
      var stale := FindLatestLive();
      if stale.Some? {
        decisions := Invalidate(decisions, stale.value);
        if status in {ReleasePendingApproval, ReleaseAuthorized} {
          status := ReleaseInvalidated;
        }
      }
      return Done;
    }

    method TransitionShipment(target: ShipmentStatus) returns (r: Outcome)
      modifies this
      ensures (View(), r) == Transition(hash, old(View()), target)
      ensures forall i: nat :: E.DispatchMeetsChange(hash, old(View()), target, i) ==>
                                 (View(), r) == (E.Withdrawn(old(View()), i), Refused(InvalidatedRelease))
    {
      forall i: nat | E.DispatchMeetsChange(hash, View(), target, i)
        ensures Transition(hash, View(), target) == (E.Withdrawn(View(), i), Refused(InvalidatedRelease))
      {
        E.DispatchOutcomes(hash, View());
      }
      if !CanTransition(status, target) {
        return Refused(InvalidTransition);
      }
      if target == Dispatched {
        var latest := FindLatestLive();
        if latest.None? || status != ReleaseAuthorized || !SecondApproved(View(), latest.value) {
          return Refused(FourEyesRequired);
        }
        var evidence := CollectEvidence();
        if hash(BuildReleaseSnapshot(evidence)) != decisions[latest.value].evidenceHash {
          decisions := Invalidate(decisions, latest.value);
          status := ReleaseInvalidated;
          return Refused(InvalidatedRelease);
        }
      }
      status := target;
      return Done;
    }

    method UpdateWorkTask(task: nat, taskStatus: TaskStatus) returns (r: Outcome)
      modifies this
      ensures (View(), r) == UpdateTask(old(View()), task, taskStatus)
    {
      if task >= |tasks| {
        return Refused(NotFound);
      }
      tasks := tasks[task := taskStatus];
      var remaining := CountOpenTasks();
      if remaining == 0 && status in {DocumentsRequired, ReviewRequired} {
        status := ReviewRequired;
      }
      return Done;
    }
  }
}
