/**
 The history of reconciliation reports. Each report names the one it supersedes, and a
 report's name is a hash of its content, so the history is a chain that cannot repeat.
 */
module ReconciliationHistory {
  import opened Numerics
  import opened RecoveryContracts
  import opened ExecutionLedger

  ghost predicate Linear(reports: seq<Report>) {
    && (reports != [] ==> reports[0].content.supersedes == None)
    && forall k :: 0 < k < |reports| ==> reports[k].content.supersedes == Some(reports[k - 1].reportId)
  }

  ghost predicate Bound(reports: seq<Report>, hash: ContentHash) {
    forall k :: 0 <= k < |reports| ==> reports[k].reportId == hash(reports[k].content)
  }

  function NextSupersedes(reports: seq<Report>): Option<Id> {
    if reports == [] then None else Some(reports[|reports| - 1].reportId)
  }

  // Equal names force equal predecessors, all the way back to the report that has none.
  lemma {:induction false} NamesAreDistinct(reports: seq<Report>, hash: ContentHash, i: nat, j: nat)
    requires Injective(hash) && Linear(reports) && Bound(reports, hash)
    requires i < j < |reports|
    ensures reports[i].reportId != reports[j].reportId
    decreases i
  {
    if reports[i].reportId == reports[j].reportId {
      assert hash(reports[i].content) == hash(reports[j].content);
      assert reports[i].content == reports[j].content;
      assert reports[j].content.supersedes == Some(reports[j - 1].reportId);
      if 0 < i {
        NamesAreDistinct(reports, hash, i - 1, j - 1);
      }
    }
  }

  lemma {:induction false} ReportsOfLog(log: Log, report: Report)
    ensures ReconciliationRecorded(report) in log <==> report in Reports(log)
  {
    if log != [] {
      var front, last := log[..|log| - 1], log[|log| - 1];
      assert log == front + [last];
      ReportsOfLog(front, report);
    }
  }

  // The append guard accepts a report exactly when it supersedes the latest one: a report
  // that does can never collide with an earlier row.
  lemma GuardAcceptsExactlyTheSuccessor(log: Log, report: Report, hash: ContentHash)
    requires Injective(hash) && Linear(Reports(log)) && Bound(Reports(log), hash)
    requires report.reportId == hash(report.content)
    ensures AfterReconciliation(log, report).0.Success? <==>
            report.content.supersedes == NextSupersedes(Reports(log))
  {
    var reports := Reports(log);
    if report.content.supersedes == NextSupersedes(reports) && Collides(log, ReconciliationRecorded(report)) {
      ReportsOfLog(log, report);
      var k :| 0 <= k < |reports| && reports[k] == report;
      var extended := reports + [report];
      assert Linear(extended) && Bound(extended, hash);
      NamesAreDistinct(extended, hash, k, |reports|);
      assert false;
    }
  }

  lemma AppendKeepsHistory(log: Log, report: Report, hash: ContentHash)
    requires Linear(Reports(log)) && Bound(Reports(log), hash)
    requires report.reportId == hash(report.content)
    ensures var log' := AfterReconciliation(log, report).1;
            Linear(Reports(log')) && Bound(Reports(log'), hash)
  {
    AppendReads(log, ReconciliationRecorded(report));
  }

  ghost predicate CallsAreBound(calls: seq<LedgerCall>, hash: ContentHash) {
    forall k :: 0 <= k < |calls| && calls[k].Reconcile? ==>
      calls[k].report.reportId == hash(calls[k].report.content)
  }

  // Whatever is asked of a ledger that starts empty, restarts included, its reports form
  // one chain in which no two have the same name.
  lemma {:induction false} HistoryStaysLinear(log: Log, calls: seq<LedgerCall>, hash: ContentHash)
    requires Injective(hash) && CallsAreBound(calls, hash)
    requires Linear(Reports(log)) && Bound(Reports(log), hash)
    ensures var reports := Reports(LogAfter(log, calls));
            && Linear(reports)
            && Bound(reports, hash)
            && forall i, j :: 0 <= i < j < |reports| ==> reports[i].reportId != reports[j].reportId
    decreases |calls|
  {
    if calls == [] {
      AllNamesAreDistinct(Reports(log), hash);
    } else {
      OneCallKeepsHistory(log, calls[0], hash);
      HistoryStaysLinear(LogStep(log, calls[0]).1, calls[1..], hash);
    }
  }

  lemma AllNamesAreDistinct(reports: seq<Report>, hash: ContentHash)
    requires Injective(hash) && Linear(reports) && Bound(reports, hash)
    ensures forall i, j :: 0 <= i < j < |reports| ==> reports[i].reportId != reports[j].reportId
  {
    forall i, j | 0 <= i < j < |reports|
      ensures reports[i].reportId != reports[j].reportId
    {
      NamesAreDistinct(reports, hash, i, j);
    }
  }

  lemma OneCallKeepsHistory(log: Log, call: LedgerCall, hash: ContentHash)
    requires Linear(Reports(log)) && Bound(Reports(log), hash)
    requires call.Reconcile? ==> call.report.reportId == hash(call.report.content)
    ensures var log' := LogStep(log, call).1; Linear(Reports(log')) && Bound(Reports(log'), hash)
  {
    if call.Reconcile? {
      AppendKeepsHistory(log, call.report, hash);
    } else {
      OthersKeepReports(log, call);
    }
  }

  lemma OthersKeepReports(log: Log, call: LedgerCall)
    requires !call.Reconcile?
    ensures Reports(LogStep(log, call).1) == Reports(log)
  {
    match call {
      case Reserve(i) => AppendReads(log, Reserved(i));
      case Record(r) => AppendReads(log, ResultRecorded(r));
      case _ =>
    }
  }
}
