/**
 Findings, reconciliation reports and ledger transitions: the records that make a
 restart recoverable.
 */
module RecoveryContracts {
  import opened Numerics
  import opened ExecutionContracts

  datatype FindingKind = BROKER_ONLY | CONFLICT | LOCAL_ONLY | MATCHED | UNKNOWN_LINK

  datatype ResolutionStatus = RESOLVED | RECONCILIATION_REQUIRED

  datatype FindingReason =
    | NO_EXACT_BROKER_EVIDENCE
    | EXACT_LINK_MATCH
    | UNCLASSIFIED_BROKER_OBJECT
    | TICKET_MISMATCH
    | DIRECTION_MISMATCH
    | VOLUME_MISMATCH

  datatype Finding = Finding(
    kind: FindingKind,
    status: ResolutionStatus,
    intentId: Option<Id>,
    objectId: Option<Id>,
    ticket: Option<nat>,
    reason: FindingReason
  )

  datatype ReportContent = ReportContent(
    snapshotId: Id,
    asOf: Instant,
    availableAt: Instant,
    status: ResolutionStatus,
    findings: seq<Finding>,
    supersedes: Option<Id>
  )

  // A report is named by a hash of everything it says, the report it supersedes included.
  datatype Report = Report(reportId: Id, content: ReportContent)

  type ContentHash = ReportContent -> Id

  ghost predicate Injective(hash: ContentHash) {
    forall a, b :: hash(a) == hash(b) ==> a == b
  }

  predicate ValidFinding(f: Finding) {
    f.kind == MATCHED <==> f.status == RESOLVED
  }

  predicate AllResolved(findings: seq<Finding>) {
    forall k :: 0 <= k < |findings| ==> findings[k].status == RESOLVED
  }

  ghost predicate ValidReconciliation(r: Report, hash: ContentHash) {
    && r.reportId == hash(r.content)
    && r.content.availableAt <= r.content.asOf
    && (r.content.status == RESOLVED <==> AllResolved(r.content.findings))
    && forall k :: 0 <= k < |r.content.findings| ==> ValidFinding(r.content.findings[k])
  }

  // A transition carries exactly one payload, and the payload fixes its type and its intent.
  datatype Transition =
    | Reserved(intent: Intent)
    | ResultRecorded(result: ExecutionResult)
    | ReconciliationRecorded(report: Report)
}
