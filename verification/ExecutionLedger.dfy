/**
 The durable execution ledger. The in-memory reference is a set and a dictionary; the
 SQLite ledger keeps nothing but an append-only log and answers every question by
 reading it back. The log refines the dictionary, across restarts.
 */
module ExecutionLedger {
  import opened Numerics
  import opened Ordering
  import opened ExecutionContracts
  import opened RecoveryContracts

  type Log = seq<Transition>

  datatype LedgerError =
    | NOT_RESERVED
    | DIFFERENT_RESULT
    | FIRST_CANNOT_SUPERSEDE
    | MUST_SUPERSEDE_LATEST
    | INTEGRITY_ERROR

  // ----- Questions answered by reading the log -----

  predicate Reserves(t: Transition, id: Id) {
    t.Reserved? && t.intent.intentId == id
  }

  predicate Records(t: Transition, id: Id) {
    t.ResultRecorded? && t.result.intentId == id
  }

  predicate IsReserved(log: Log, id: Id) {
    exists k :: 0 <= k < |log| && Reserves(log[k], id)
  }

  // The newest result of an intent.
  function Recorded(log: Log, id: Id): (r: Option<ExecutionResult>)
    ensures r.Some? ==> r.value.intentId == id && ResultRecorded(r.value) in log
  {
    if log == [] then
      None
    else
      var last := log[|log| - 1];
      if Records(last, id) then Some(last.result) else Recorded(log[..|log| - 1], id)
  }

  function Reports(log: Log): seq<Report> {
    if log == [] then
      []
    else
      var last := log[|log| - 1];
      Reports(log[..|log| - 1]) + if last.ReconciliationRecorded? then [last.report] else []
  }

  function LatestReport(log: Log): Option<Report> {
    var reports := Reports(log);
    if reports == [] then None else Some(reports[|reports| - 1])
  }

  // ----- The reference: a set of reservations and a dictionary of results -----

  datatype Memory = Memory(reserved: set<Id>, results: map<Id, ExecutionResult>)

  function View(log: Log): Memory {
    if log == [] then
      Memory({}, map[])
    else
      var before := View(log[..|log| - 1]);
      match log[|log| - 1]
      case Reserved(i) => before.(reserved := before.reserved + {i.intentId})
      case ResultRecorded(r) => before.(results := before.results[r.intentId := r])
      case ReconciliationRecorded(_) => before
  }

  lemma {:induction false} ViewMeaning(log: Log, id: Id)
    ensures id in View(log).reserved <==> IsReserved(log, id)
    ensures id in View(log).results <==> Recorded(log, id).Some?
    ensures id in View(log).results ==> View(log).results[id] == Recorded(log, id).value
  {
    if log != [] {
      var front := log[..|log| - 1];
      ViewMeaning(front, id);
      assert forall k :: 0 <= k < |front| ==> front[k] == log[k];
    }
  }

  lemma {:induction false} RecordedSome(log: Log, k: int)
    requires 0 <= k < |log| && log[k].ResultRecorded?
    ensures Recorded(log, log[k].result.intentId).Some?
    decreases |log|
  {
    if k < |log| - 1 {
      assert log[..|log| - 1][k] == log[k];
      RecordedSome(log[..|log| - 1], k);
    }
  }

  lemma AppendReads(log: Log, t: Transition)
    ensures forall id :: IsReserved(log + [t], id) <==> IsReserved(log, id) || Reserves(t, id)
    ensures forall id :: Recorded(log + [t], id) == if Records(t, id) then Some(t.result) else Recorded(log, id)
    ensures Reports(log + [t]) == Reports(log) + if t.ReconciliationRecorded? then [t.report] else []
    ensures View(log + [t]) ==
            match t {
              case Reserved(i) => View(log).(reserved := View(log).reserved + {i.intentId})
              case ResultRecorded(r) => View(log).(results := View(log).results[r.intentId := r])
              case ReconciliationRecorded(_) => View(log)
            }
  {
    var longer := log + [t];
    assert longer[..|longer| - 1] == log;
    forall id
      ensures IsReserved(longer, id) <==> IsReserved(log, id) || Reserves(t, id)
    {
      if IsReserved(log, id) {
        var k :| 0 <= k < |log| && Reserves(log[k], id);
        assert Reserves(longer[k], id);
      }
      if Reserves(t, id) {
        assert Reserves(longer[|log|], id);
      }
      if IsReserved(longer, id) {
        var k :| 0 <= k < |longer| && Reserves(longer[k], id);
        if k < |log| {
          assert Reserves(log[k], id);
        }
      }
    }
  }

  // ----- Inserting -----

  // Rows are content-addressed, so an equal row breaks UNIQUE(transition_id); a second
  // reservation of an intent breaks the reservation index.
  predicate Collides(log: Log, t: Transition) {
    t in log || (t.Reserved? && IsReserved(log, t.intent.intentId))
  }

  function AfterReserve(log: Log, intent: Intent): (bool, Log) {
    if IsReserved(log, intent.intentId) then (false, log) else (true, log + [Reserved(intent)])
  }

  function AfterRecord(log: Log, result: ExecutionResult): (Outcome<bool, LedgerError>, Log) {
    if !IsReserved(log, result.intentId) then
      (Failure(NOT_RESERVED), log)
    else
      match Recorded(log, result.intentId)
      case None => (Success(true), log + [ResultRecorded(result)])
      case Some(prior) => (if prior == result then Success(true) else Failure(DIFFERENT_RESULT), log)
  }

  function AfterReconciliation(log: Log, report: Report): (Outcome<bool, LedgerError>, Log) {
    match LatestReport(log)
    case None =>
      if report.content.supersedes.Some? then
        (Failure(FIRST_CANNOT_SUPERSEDE), log)
      else if Collides(log, ReconciliationRecorded(report)) then
        (Failure(INTEGRITY_ERROR), log)
      else
        (Success(true), log + [ReconciliationRecorded(report)])
    case Some(previous) =>
      if report.content.supersedes != Some(previous.reportId) then
        (Failure(MUST_SUPERSEDE_LATEST), log)
      else if Collides(log, ReconciliationRecorded(report)) then
        (Failure(INTEGRITY_ERROR), log)
      else
        (Success(true), log + [ReconciliationRecorded(report)])
  }

  // UNIQUE(transition_id) fires on nothing that the ledger's own checks let through: a
  // reservation collides exactly when the intent is reserved, and a result only when the
  // intent already has one.
  lemma ReservationCollides(log: Log, intent: Intent)
    ensures Collides(log, Reserved(intent)) <==> IsReserved(log, intent.intentId)
  {
    if Reserved(intent) in log {
      var k :| 0 <= k < |log| && log[k] == Reserved(intent);
      assert Reserves(log[k], intent.intentId);
    }
  }

  lemma ResultCollides(log: Log, result: ExecutionResult)
    ensures Collides(log, ResultRecorded(result)) ==> Recorded(log, result.intentId).Some?
  {
    if ResultRecorded(result) in log {
      var k :| 0 <= k < |log| && log[k] == ResultRecorded(result);
      RecordedSome(log, k);
    }
  }

  // ----- The ledger objects -----

  class SQLiteExecutionLedger {
    var log: Log

    // Reopening a database file gives a new object over the stored rows.
    constructor (stored: Log)
      ensures log == stored
    {
      log := stored;
    }

    method AppendTransition(t: Transition) returns (ok: bool)
      modifies this
      ensures ok == !Collides(old(log), t)
      ensures log == if ok then old(log) + [t] else old(log)
    {
      ok := !Collides(log, t);
      if ok {
        log := log + [t];
      }
    }

    method HasReservation(id: Id) returns (found: bool)
      ensures found == IsReserved(log, id)
    {
      found := false;
      for k := 0 to |log|
        invariant !found
        invariant forall j :: 0 <= j < k ==> !Reserves(log[j], id)
      {
        if Reserves(log[k], id) {
          return true;
        }
      }
    }

    method Get(id: Id) returns (result: Option<ExecutionResult>)
      ensures result == Recorded(log, id)
    {
      var values: seq<ExecutionResult> := [];
      for k := 0 to |log|
        invariant (if values == [] then None else Some(values[|values| - 1])) == Recorded(log[..k], id)
      {
        assert log[..k + 1] == log[..k] + [log[k]];
        AppendReads(log[..k], log[k]);
        if Records(log[k], id) {
          values := values + [log[k].result];
        }
      }
      assert log[..|log|] == log;
      result := if values == [] then None else Some(values[|values| - 1]);
    }

    method Reserve(intent: Intent) returns (won: bool)
      modifies this
      ensures (won, log) == AfterReserve(old(log), intent)
    {
      ReservationCollides(log, intent);
      won := AppendTransition(Reserved(intent));
    }

    method Record(result: ExecutionResult) returns (outcome: Outcome<bool, LedgerError>)
      modifies this
      ensures (outcome, log) == AfterRecord(old(log), result)
    {
      var reserved := HasReservation(result.intentId);
      if !reserved {
        return Failure(NOT_RESERVED);
      }
      var prior := Get(result.intentId);
      if prior.Some? {
        return if prior.value == result then Success(true) else Failure(DIFFERENT_RESULT);
      }
      ResultCollides(log, result);
      var ok := AppendTransition(ResultRecorded(result));
      return Success(ok);
    }

    method LatestResults() returns (results: seq<ExecutionResult>)
      ensures results == Listing(View(log).results)
    {
      var byIntent := ResultsByIntent();
      var keys := SortIds(byIntent.Keys);
      results := seq(|keys|, i requires 0 <= i < |keys| && keys[i] in byIntent => byIntent[keys[i]]);
    }

    method ResultsByIntent() returns (byIntent: map<Id, ExecutionResult>)
      ensures byIntent == View(log).results
    {
      byIntent := map[];
      for k := 0 to |log|
        invariant byIntent == View(log[..k]).results
      {
        assert log[..k + 1] == log[..k] + [log[k]];
        AppendReads(log[..k], log[k]);
        if log[k].ResultRecorded? {
          byIntent := byIntent[log[k].result.intentId := log[k].result];
        }
      }
      assert log[..|log|] == log;
    }

    method LatestReconciliation() returns (report: Option<Report>)
      ensures report == LatestReport(log)
    {
      var values: seq<Report> := [];
      for k := 0 to |log|
        invariant values == Reports(log[..k])
      {
        assert log[..k + 1] == log[..k] + [log[k]];
        AppendReads(log[..k], log[k]);
        if log[k].ReconciliationRecorded? {
          values := values + [log[k].report];
        }
      }
      assert log[..|log|] == log;
      report := if values == [] then None else Some(values[|values| - 1]);
    }

    method AppendReconciliation(report: Report) returns (outcome: Outcome<bool, LedgerError>)
      modifies this
      ensures (outcome, log) == AfterReconciliation(old(log), report)
    {
      var previous := LatestReconciliation();
      if previous.None? && report.content.supersedes.Some? {
        return Failure(FIRST_CANNOT_SUPERSEDE);
      }
      if previous.Some? && report.content.supersedes != Some(previous.value.reportId) {
        return Failure(MUST_SUPERSEDE_LATEST);
      }
      var ok := AppendTransition(ReconciliationRecorded(report));
      return if ok then Success(true) else Failure(INTEGRITY_ERROR);
    }
  }

  // The tuple latest_results() returns: one result per intent, in intent order.
  ghost function Listing(results: map<Id, ExecutionResult>): (r: seq<ExecutionResult>)
    ensures |r| == |results.Keys|
  {
    var keys := Sorted(results.Keys);
    seq(|keys|, i requires 0 <= i < |keys| => results[keys[i]])
  }

  class InMemoryExecutionLedger {
    var reserved: set<Id>
    var results: map<Id, ExecutionResult>

    constructor ()
      ensures reserved == {} && results == map[]
    {
      reserved, results := {}, map[];
    }

    ghost function Contents(): Memory
      reads this
    {
      Memory(reserved, results)
    }

    method Get(id: Id) returns (result: Option<ExecutionResult>)
      ensures result == if id in results then Some(results[id]) else None
    {
      result := if id in results then Some(results[id]) else None;
    }

    method Reserve(intent: Intent) returns (won: bool)
      modifies this
      ensures results == old(results)
      ensures won == (intent.intentId !in old(reserved))
      ensures reserved == old(reserved) + {intent.intentId}
    {
      if intent.intentId in reserved {
        assert reserved == reserved + {intent.intentId};
        return false;
      }
      reserved := reserved + {intent.intentId};
      return true;
    }

    method Record(result: ExecutionResult) returns (outcome: Outcome<bool, LedgerError>)
      modifies this
      ensures (outcome, Contents()) == MapRecord(old(Contents()), result)
      ensures outcome.Success? ==> result.intentId in reserved && results == old(results)[result.intentId := result]
      ensures outcome.Failure? ==> results == old(results)
      ensures forall id :: id in old(results) ==> id in results && results[id] == old(results)[id]
    {
      if result.intentId !in reserved {
        return Failure(NOT_RESERVED);
      }
      if result.intentId in results && results[result.intentId] != result {
        return Failure(DIFFERENT_RESULT);
      }
      results := results[result.intentId := result];
      return Success(true);
    }
  }

  function MapRecord(m: Memory, result: ExecutionResult): (Outcome<bool, LedgerError>, Memory) {
    if result.intentId !in m.reserved then
      (Failure(NOT_RESERVED), m)
    else if result.intentId in m.results && m.results[result.intentId] != result then
      (Failure(DIFFERENT_RESULT), m)
    else
      (Success(true), m.(results := m.results[result.intentId := result]))
  }

  // ----- The log refines the dictionary -----

  datatype LedgerCall =
    | Reserve(intent: Intent)
    | Record(result: ExecutionResult)
    | Get(id: Id)
    | AskReserved(id: Id)
    | LatestResults
    | Reconcile(report: Report)
    | Restart

  datatype Reply =
    | Won(won: bool)
    | Recording(outcome: Outcome<bool, LedgerError>)
    | Found(result: Option<ExecutionResult>)
    | Flag(yes: bool)
    | Results(results: seq<ExecutionResult>)
    | Silent

  ghost function LogStep(log: Log, call: LedgerCall): (Reply, Log) {
    match call
    case Reserve(i) => var (won, log') := AfterReserve(log, i); (Won(won), log')
    case Record(r) => var (outcome, log') := AfterRecord(log, r); (Recording(outcome), log')
    case Get(id) => (Found(Recorded(log, id)), log)
    case AskReserved(id) => (Flag(IsReserved(log, id)), log)
    case LatestResults => (Results(Listing(View(log).results)), log)
    case Reconcile(r) => (Silent, AfterReconciliation(log, r).1)
    case Restart => (Silent, log)
  }

  ghost function MapStep(m: Memory, call: LedgerCall): (Reply, Memory) {
    match call
    case Reserve(i) => (Won(i.intentId !in m.reserved), m.(reserved := m.reserved + {i.intentId}))
    case Record(r) => var (outcome, m') := MapRecord(m, r); (Recording(outcome), m')
    case Get(id) => (Found(if id in m.results then Some(m.results[id]) else None), m)
    case AskReserved(id) => (Flag(id in m.reserved), m)
    case LatestResults => (Results(Listing(m.results)), m)
    case Reconcile(_) => (Silent, m)
    case Restart => (Silent, m)
  }

  ghost function LogReplies(log: Log, calls: seq<LedgerCall>): seq<Reply>
    decreases |calls|
  {
    if calls == [] then
      []
    else
      var (reply, log') := LogStep(log, calls[0]);
      [reply] + LogReplies(log', calls[1..])
  }

  ghost function LogAfter(log: Log, calls: seq<LedgerCall>): Log
    decreases |calls|
  {
    if calls == [] then log else LogAfter(LogStep(log, calls[0]).1, calls[1..])
  }

  ghost function MapReplies(m: Memory, calls: seq<LedgerCall>): seq<Reply>
    decreases |calls|
  {
    if calls == [] then
      []
    else
      var (reply, m') := MapStep(m, calls[0]);
      [reply] + MapReplies(m', calls[1..])
  }

  lemma StepRefines(log: Log, call: LedgerCall)
    ensures LogStep(log, call).0 == MapStep(View(log), call).0
    ensures View(LogStep(log, call).1) == MapStep(View(log), call).1
    ensures log <= LogStep(log, call).1
  {
    match call {
      case Reserve(i) =>
        ViewMeaning(log, i.intentId);
        AppendReads(log, Reserved(i));
        if i.intentId in View(log).reserved {
          assert View(log).reserved + {i.intentId} == View(log).reserved;
        }
      case Record(r) =>
        ViewMeaning(log, r.intentId);
        AppendReads(log, ResultRecorded(r));
        if r.intentId in View(log).results && View(log).results[r.intentId] == r {
          assert View(log).results[r.intentId := r] == View(log).results;
        }
      case Get(id) => ViewMeaning(log, id);
      case AskReserved(id) => ViewMeaning(log, id);
      case LatestResults =>
      case Reconcile(r) => AppendReads(log, ReconciliationRecorded(r));
      case Restart =>
    }
  }

  // For every sequence of calls, with restarts anywhere in it, the log and the dictionary
  // give the same answers and the same errors, and the log only ever grows at its end.
  lemma {:induction false} LogRefinesMap(log: Log, calls: seq<LedgerCall>)
    ensures LogReplies(log, calls) == MapReplies(View(log), calls)
    ensures log <= LogAfter(log, calls)
    decreases |calls|
  {
    if calls != [] {
      StepRefines(log, calls[0]);
      LogRefinesMap(LogStep(log, calls[0]).1, calls[1..]);
    }
  }

  // ----- Write-once results -----

  // One reservation and at most one result per intent, the reservation first.
  ghost predicate WellFormed(log: Log) {
    && (forall j, k :: 0 <= j < k < |log| && log[j].Reserved? && log[k].Reserved? ==>
          log[j].intent.intentId != log[k].intent.intentId)
    && (forall j, k :: 0 <= j < k < |log| && log[j].ResultRecorded? && log[k].ResultRecorded? ==>
          log[j].result.intentId != log[k].result.intentId)
    && (forall k {:trigger ReservedFirst(log, k)} :: 0 <= k < |log| ==> ReservedFirst(log, k))
  }

  predicate ReservedFirst(log: Log, k: nat)
    requires k < |log|
  {
    log[k].ResultRecorded? ==> IsReserved(log[..k], log[k].result.intentId)
  }

  lemma RecordedMeansReserved(log: Log, id: Id)
    ensures WellFormed(log) && Recorded(log, id).Some? ==> IsReserved(log, id)
  {
    if WellFormed(log) && Recorded(log, id).Some? {
      var k :| 0 <= k < |log| && log[k] == ResultRecorded(Recorded(log, id).value);
      assert ReservedFirst(log, k);
      var j :| 0 <= j < k && Reserves(log[..k][j], id);
      assert Reserves(log[j], id);
    }
  }

  lemma StepKeepsWellFormed(log: Log, call: LedgerCall)
    requires WellFormed(log)
    ensures WellFormed(LogStep(log, call).1)
  {
    var longer := LogStep(log, call).1;
    if longer != log {
      var t := longer[|log|];
      assert longer == log + [t];
      assert longer[..|log|] == log;
      forall j | 0 <= j < |log| && log[j].Reserved? && t.Reserved?
        ensures log[j].intent.intentId != t.intent.intentId
      {
        assert Reserves(log[j], log[j].intent.intentId);
      }
      forall j | 0 <= j < |log| && log[j].ResultRecorded? && t.ResultRecorded?
        ensures log[j].result.intentId != t.result.intentId
      {
        RecordedSome(log, j);
      }
      forall k | 0 <= k < |longer|
        ensures ReservedFirst(longer, k)
      {
        if k < |log| {
          assert longer[..k] == log[..k];
          assert ReservedFirst(log, k);
        }
      }
    }
  }

  // The first result recorded for an intent is the one every later read returns.
  lemma {:induction false} ResultsAreWriteOnce(log: Log, calls: seq<LedgerCall>, id: Id)
    requires Recorded(log, id).Some?
    ensures Recorded(LogAfter(log, calls), id) == Recorded(log, id)
    decreases |calls|
  {
    if calls != [] {
      var next := LogStep(log, calls[0]).1;
      if next != log {
        var t := next[|log|];
        assert next == log + [t];
        AppendReads(log, t);
      }
      ResultsAreWriteOnce(next, calls[1..], id);
    }
  }

  // Why Record must check and append as one step: two writers that both passed the check
  // and then both append leave a log whose answer changed after it was first given.
  lemma CheckThenAppendCanOverwrite(log: Log, first: ExecutionResult, second: ExecutionResult)
    requires first.intentId == second.intentId && first != second
    requires AfterRecord(log, first).1 == log + [ResultRecorded(first)]
    ensures AfterRecord(log, second).1 == log + [ResultRecorded(second)]
    ensures var once := log + [ResultRecorded(first)];
            var twice := once + [ResultRecorded(second)];
            Recorded(once, first.intentId) == Some(first) && Recorded(twice, first.intentId) == Some(second)
  {
    assert |log + [ResultRecorded(first)]| != |log|;
    assert (log + [ResultRecorded(first)])[..|log|] == log;
    AppendReads(log, ResultRecorded(first));
    AppendReads(log + [ResultRecorded(first)], ResultRecorded(second));
  }
}
