/**
 Any number of adapters over one shared ledger, their steps interleaved in any order, with
 a crash possible between any two steps and with restarts that find only the ledger.
 The steps are those of DemoExecutionAdapter.Execute, cut at its effects.
 */
module ExecutionProtocol {
  import opened Numerics
  import opened ExecutionContracts
  import opened RecoveryContracts
  import opened ExecutionLedger
  import opened ExecutionAdapter

  datatype Stage =
    | Calling                              // about to look the intent up
    | Claiming                             // nothing recorded: about to reserve
    | Holding                              // reservation won: about to observe and check
    | Ready(observation: Observation)      // every check passed: about to submit
    | Waiting(observation: Observation)    // submitted: no answer yet
    | Writing(result: ExecutionResult)     // about to record
    | Ended

  datatype Worker = Worker(policy: Policy, intent: Intent, stage: Stage)

  datatype World = World(
    log: Log,
    workers: map<nat, Worker>,
    sent: seq<Submission>,                 // every transport.submit, in order
    claims: map<Id, nat>,                  // which worker won the reservation of an intent
    replies: map<Id, ExecutionResult>,     // the result each transport answer stands for
    duplicates: set<Id>                    // intents a second caller found reserved without a result
  )

  datatype Action =
    | Call(worker: nat, policy: Policy, intent: Intent)
    | Lookup(worker: nat)
    | Claim(worker: nat)
    | Check(worker: nat, observing: Observing, validating: Validating)
    | Submit(worker: nat)
    | Answer(worker: nat, replying: Replying)
    | Write(worker: nat)
    | Crash(worker: nat)
    | WriteReconciliation(report: Report)

  const START := World([], map[], [], map[], map[], {})

  function Moved(s: World, w: nat, stage: Stage): World
    requires w in s.workers
  {
    s.(workers := s.workers[w := s.workers[w].(stage := stage)])
  }

  // An action whose worker is elsewhere leaves the world as it is.
  function Step(s: World, a: Action): World {
    match a
    case Call(w, policy, intent) =>
      if w !in s.workers && ValidIntent(intent) && Binds(policy, intent) then
        s.(workers := s.workers[w := Worker(policy, intent, Calling)])
      else
        s
    case Lookup(w) =>
      if w in s.workers && s.workers[w].stage == Calling then
        Moved(s, w, if Recorded(s.log, s.workers[w].intent.intentId).Some? then Ended else Claiming)
      else
        s
    case Claim(w) =>
      if w in s.workers && s.workers[w].stage == Claiming then
        var intent := s.workers[w].intent;
        var (won, log') := AfterReserve(s.log, intent);
        if won then
          Moved(s.(log := log', claims := s.claims[intent.intentId := w]), w, Holding)
        else
          Moved(s.(duplicates := s.duplicates + {intent.intentId}), w,
                Writing(UnknownResult(intent, DUPLICATE_REASON, None)))
      else
        s
    case Check(w, observing, validating) =>
      if w in s.workers && s.workers[w].stage == Holding && 0.0 < s.workers[w].intent.pointSize then
        match BeforeSubmit(s.workers[w].policy, s.workers[w].intent, observing, validating)
        case Abort => Moved(s, w, Ended)
        case Decide(result) => Moved(s, w, Writing(result))
        case Proceed(o) => Moved(s, w, Ready(o))
      else
        s
    case Submit(w) =>
      if w in s.workers && s.workers[w].stage.Ready? then
        var worker := s.workers[w];
        var o := worker.stage.observation;
        Moved(s.(sent := s.sent + [Submission(worker.intent, worker.policy, o)]), w, Waiting(o))
      else
        s
    case Answer(w, replying) =>
      if w in s.workers && s.workers[w].stage.Waiting? && 0.0 < s.workers[w].intent.pointSize then
        var intent := s.workers[w].intent;
        match AfterSubmit(intent, s.workers[w].stage.observation, replying)
        case None => Moved(s, w, Ended)
        case Some(result) => Moved(s.(replies := s.replies[intent.intentId := result]), w, Writing(result))
      else
        s
    case Write(w) =>
      if w in s.workers && s.workers[w].stage.Writing? then
        Moved(s.(log := AfterRecord(s.log, s.workers[w].stage.result).1), w, Ended)
      else
        s
    case Crash(w) =>
      s.(workers := s.workers - {w})
    case WriteReconciliation(report) =>
      s.(log := AfterReconciliation(s.log, report).1)
  }

  function Run(s: World, actions: seq<Action>): World
    decreases |actions|
  {
    if actions == [] then s else Run(Step(s, actions[0]), actions[1..])
  }

  lemma {:induction false} RunInTwoParts(s: World, first: seq<Action>, second: seq<Action>)
    ensures Run(s, first + second) == Run(Run(s, first), second)
    decreases |first|
  {
    if first == [] {
      assert first + second == second;
    } else {
      assert (first + second)[1..] == first[1..] + second;
      RunInTwoParts(Step(s, first[0]), first[1..], second);
    }
  }

  // ----- The invariant -----

  predicate Owns(stage: Stage) {
    stage.Holding? || stage.Ready? || stage.Waiting?
  }

  // The claim on an intent is still alive: its winner may yet submit or be answered.
  predicate Live(s: World, id: Id) {
    && id in s.claims
    && s.claims[id] in s.workers
    && var worker := s.workers[s.claims[id]];
       worker.intent.intentId == id && Owns(worker.stage)
  }

  predicate IsSubmissionOf(sub: Submission, id: Id) {
    sub.intent.intentId == id
  }

  predicate IsAmong(sent: seq<Submission>, id: Id) {
    exists k :: 0 <= k < |sent| && IsSubmissionOf(sent[k], id)
  }

  predicate WasSent(s: World, id: Id) {
    IsAmong(s.sent, id)
  }

  predicate Guarded(sub: Submission) {
    && ValidIntent(sub.intent)
    && Binds(sub.policy, sub.intent)
    && sub.policy.mode == DEMO_ENABLED
    && WithinBounds(sub.policy, sub.intent, sub.observation)
  }

  // Nobody has submitted this intent, nobody is on the way to, and nobody can start again.
  predicate Closed(s: World, id: Id) {
    id in s.claims && !WasSent(s, id) && !Live(s, id)
  }

  // What a caller writes that found the intent reserved: it observed nothing, while every
  // answer of a transport carries the spread it was submitted on.
  predicate OfRefusedCaller(r: ExecutionResult) {
    r.status == UNKNOWN && r.spreadPoints.None?
  }

  // Where a result that is or will be recorded comes from.
  predicate Justified(s: World, r: ExecutionResult) {
    || (r.intentId in s.duplicates && OfRefusedCaller(r))
    || (r.intentId in s.replies && s.replies[r.intentId] == r)
    || Closed(s, r.intentId)
  }

  predicate WorkerOk(s: World, w: nat)
    requires w in s.workers
  {
    var worker := s.workers[w];
    var id := worker.intent.intentId;
    && ValidIntent(worker.intent)
    && Binds(worker.policy, worker.intent)
    && (Owns(worker.stage) ==> id in s.claims && s.claims[id] == w && id !in s.replies)
    && (worker.stage.Holding? || worker.stage.Ready? ==> !WasSent(s, id))
    && (worker.stage.Ready? ==> Guarded(Submission(worker.intent, worker.policy, worker.stage.observation)))
    && (worker.stage.Waiting? ==> WasSent(s, id))
    && (worker.stage.Writing? ==>
          worker.stage.result.intentId == id && id in s.claims && Justified(s, worker.stage.result))
  }

  ghost predicate WorkersOk(s: World) {
    forall w :: w in s.workers ==> WorkerOk(s, w)
  }

  ghost predicate SentOk(s: World) {
    && (forall k :: 0 <= k < |s.sent| ==> Guarded(s.sent[k]) && s.sent[k].intent.intentId in s.claims)
    && (forall j, k :: 0 <= j < k < |s.sent| ==> s.sent[j].intent.intentId != s.sent[k].intent.intentId)
  }

  ghost predicate LogOk(s: World) {
    && WellFormed(s.log)
    && (forall id :: IsReserved(s.log, id) <==> id in s.claims)
    && (forall id :: id in s.replies ==> WasSent(s, id) && !OfRefusedCaller(s.replies[id]))
    && (forall id :: Recorded(s.log, id).Some? ==> Justified(s, Recorded(s.log, id).value))
  }

  ghost predicate Inv(s: World) {
    WorkersOk(s) && SentOk(s) && LogOk(s)
  }

  // What every step leaves alone once it is there.
  ghost predicate Grows(s: World, t: World) {
    && s.log <= t.log
    && s.sent <= t.sent
    && s.duplicates <= t.duplicates
    && (forall id :: id in s.claims ==> id in t.claims && t.claims[id] == s.claims[id])
    && (forall id :: id in s.replies ==> id in t.replies && t.replies[id] == s.replies[id])
    && (forall id :: Closed(s, id) ==> Closed(t, id))
  }

  lemma SentGrows(s: World, t: World, id: Id)
    requires s.sent <= t.sent && WasSent(s, id)
    ensures WasSent(t, id)
  {
    var k :| 0 <= k < |s.sent| && IsSubmissionOf(s.sent[k], id);
    assert t.sent[k] == s.sent[k];
  }

  // Growing the world keeps a worker that did not move, provided nothing it relies on not
  // having happened has happened to its intent.
  lemma WorkerStaysOk(s: World, t: World, v: nat)
    requires Grows(s, t)
    requires v in s.workers && v in t.workers && t.workers[v] == s.workers[v] && WorkerOk(s, v)
    requires var id := s.workers[v].intent.intentId;
             Owns(s.workers[v].stage) ==>
               (id in t.replies ==> id in s.replies) && (WasSent(t, id) ==> WasSent(s, id))
    ensures WorkerOk(t, v)
  {
    if s.workers[v].stage.Waiting? {
      SentGrows(s, t, s.workers[v].intent.intentId);
    }
  }

  lemma LogStaysOk(s: World, t: World)
    requires LogOk(s) && Grows(s, t)
    requires t.log == s.log && t.claims == s.claims
    requires forall id :: id in t.replies && id !in s.replies ==> WasSent(s, id) && !OfRefusedCaller(t.replies[id])
    ensures LogOk(t)
  {
    forall id | id in t.replies
      ensures WasSent(t, id)
    {
      SentGrows(s, t, id);
    }
    forall id | Recorded(t.log, id).Some?
      ensures Justified(t, Recorded(t.log, id).value)
    {
      assert Justified(s, Recorded(s.log, id).value);
    }
  }

  // One worker moves to a stage that owns nothing it did not own before, and nothing else
  // changes but the record of duplicates.
  lemma MoveKeepsInv(s: World, w: nat, stage: Stage, duplicates: set<Id>)
    requires Inv(s) && w in s.workers && s.duplicates <= duplicates
    requires Owns(stage) ==> Owns(s.workers[w].stage)
    requires WorkerOk(Moved(s.(duplicates := duplicates), w, stage), w)
    ensures var t := Moved(s.(duplicates := duplicates), w, stage); Inv(t) && Grows(s, t)
  {
    var t := Moved(s.(duplicates := duplicates), w, stage);
    assert forall id :: WasSent(t, id) == WasSent(s, id);
    assert forall id :: Live(t, id) ==> Live(s, id);
    assert Grows(s, t);
    forall v | v in t.workers && v != w
      ensures WorkerOk(t, v)
    {
      assert WorkerOk(s, v);
      WorkerStaysOk(s, t, v);
    }
    LogStaysOk(s, t);
  }

  lemma CallKeepsInv(s: World, w: nat, policy: Policy, intent: Intent)
    requires Inv(s)
    ensures var t := Step(s, Call(w, policy, intent)); Inv(t) && Grows(s, t)
  {
    var t := Step(s, Call(w, policy, intent));
    if t != s {
      assert forall id :: WasSent(t, id) == WasSent(s, id);
      assert forall id :: Live(t, id) ==> Live(s, id);
      assert Grows(s, t);
      forall v | v in t.workers && v != w
        ensures WorkerOk(t, v)
      {
        assert WorkerOk(s, v);
        WorkerStaysOk(s, t, v);
      }
      LogStaysOk(s, t);
    }
  }

  lemma CrashKeepsInv(s: World, w: nat)
    requires Inv(s)
    ensures var t := Step(s, Crash(w)); Inv(t) && Grows(s, t)
  {
    var t := Step(s, Crash(w));
    assert forall id :: WasSent(t, id) == WasSent(s, id);
    assert forall id :: Live(t, id) ==> Live(s, id);
    assert Grows(s, t);
    forall v | v in t.workers
      ensures WorkerOk(t, v)
    {
      assert WorkerOk(s, v);
      WorkerStaysOk(s, t, v);
    }
    LogStaysOk(s, t);
  }

  lemma LookupKeepsInv(s: World, w: nat)
    requires Inv(s)
    ensures var t := Step(s, Lookup(w)); Inv(t) && Grows(s, t)
  {
    if w in s.workers && s.workers[w].stage == Calling {
      assert WorkerOk(s, w);
      var stage := if Recorded(s.log, s.workers[w].intent.intentId).Some? then Ended else Claiming;
      assert Moved(s.(duplicates := s.duplicates), w, stage) == Moved(s, w, stage);
      MoveKeepsInv(s, w, stage, s.duplicates);
    }
  }

  // A check that decides without submitting closes the intent for good.
  lemma CheckKeepsInv(s: World, w: nat, observing: Observing, validating: Validating)
    requires Inv(s)
    ensures var t := Step(s, Check(w, observing, validating)); Inv(t) && Grows(s, t)
  {
    if w in s.workers && s.workers[w].stage == Holding && 0.0 < s.workers[w].intent.pointSize {
      assert WorkerOk(s, w);
      var worker := s.workers[w];
      ProceedMeansGuarded(worker.policy, worker.intent, observing, validating);
      var d := BeforeSubmit(worker.policy, worker.intent, observing, validating);
      var stage := match d { case Abort => Ended case Decide(r) => Writing(r) case Proceed(o) => Ready(o) };
      var t := Moved(s, w, stage);
      assert t == Moved(s.(duplicates := s.duplicates), w, stage);
      assert WasSent(t, worker.intent.intentId) == WasSent(s, worker.intent.intentId);
      if d.Decide? {
        assert Closed(t, worker.intent.intentId);
      }
      MoveKeepsInv(s, w, stage, s.duplicates);
    }
  }

  lemma ClaimKeepsInv(s: World, w: nat)
    requires Inv(s)
    ensures var t := Step(s, Claim(w)); Inv(t) && Grows(s, t)
  {
    if w in s.workers && s.workers[w].stage == Claiming {
      assert WorkerOk(s, w);
      var intent := s.workers[w].intent;
      if IsReserved(s.log, intent.intentId) {
        MoveKeepsInv(s, w, Writing(UnknownResult(intent, DUPLICATE_REASON, None)),
                     s.duplicates + {intent.intentId});
      } else {
        ClaimWonKeepsInv(s, w);
      }
    }
  }

  // One more row in the ledger.
  lemma RowKeepsLogOk(s: World, t: World, row: Transition)
    requires LogOk(s) && Grows(s, t)
    requires t.log == s.log + [row] && WellFormed(t.log)
    requires t.replies == s.replies
    requires t.claims.Keys == s.claims.Keys + if row.Reserved? then {row.intent.intentId} else {}
    requires row.ResultRecorded? ==> Justified(t, row.result)
    ensures LogOk(t)
  {
    AppendReads(s.log, row);
    forall id
      ensures IsReserved(t.log, id) <==> id in t.claims
    {
      assert IsReserved(s.log, id) <==> id in s.claims.Keys;
      assert id in t.claims <==> id in t.claims.Keys;
    }
    forall id | id in t.replies
      ensures WasSent(t, id)
    {
      SentGrows(s, t, id);
    }
    forall id | Recorded(t.log, id).Some?
      ensures Justified(t, Recorded(t.log, id).value)
    {
      if !Records(row, id) {
        assert Justified(s, Recorded(s.log, id).value);
      }
    }
  }

  lemma ClaimWonKeepsInv(s: World, w: nat)
    requires Inv(s)
    requires w in s.workers && s.workers[w].stage == Claiming
    requires !IsReserved(s.log, s.workers[w].intent.intentId)
    ensures var t := Step(s, Claim(w)); Inv(t) && Grows(s, t)
  {
    var t := Step(s, Claim(w));
    var intent := s.workers[w].intent;
    assert WorkerOk(s, w);
    ClaimWonGrows(s, t, w);
    ClaimWonKeepsWorkers(s, t, w);
    StepKeepsWellFormed(s.log, Reserve(intent));
    RowKeepsLogOk(s, t, Reserved(intent));
  }

  predicate ClaimedBy(s: World, t: World, w: nat) {
    && w in s.workers
    && var id := s.workers[w].intent.intentId;
       && id !in s.claims
       && t.claims == s.claims[id := w]
       && t.workers == s.workers[w := s.workers[w].(stage := Holding)]
       && s.log <= t.log && t.sent == s.sent && t.replies == s.replies && t.duplicates == s.duplicates
  }

  lemma ClaimWonGrows(s: World, t: World, w: nat)
    requires SentOk(s) && ClaimedBy(s, t, w)
    ensures Grows(s, t) && SentOk(t)
    ensures !WasSent(t, s.workers[w].intent.intentId)
  {
    assert forall id :: WasSent(t, id) == WasSent(s, id);
    assert forall id :: Live(t, id) ==> Live(s, id) || id == s.workers[w].intent.intentId;
  }

  lemma ClaimWonKeepsWorkers(s: World, t: World, w: nat)
    requires WorkersOk(s) && ClaimedBy(s, t, w) && Grows(s, t)
    requires !WasSent(t, s.workers[w].intent.intentId)
    requires forall id :: id in s.replies ==> WasSent(s, id)
    ensures WorkersOk(t)
  {
    assert WorkerOk(s, w);
    forall v | v in t.workers && v != w
      ensures WorkerOk(t, v)
    {
      assert WorkerOk(s, v);
      assert WasSent(t, s.workers[v].intent.intentId) ==> WasSent(s, s.workers[v].intent.intentId);
      WorkerStaysOk(s, t, v);
    }
    var id := s.workers[w].intent.intentId;
    assert WasSent(s, id) ==> WasSent(t, id);
  }

  lemma SubmitKeepsInv(s: World, w: nat)
    requires Inv(s)
    ensures var t := Step(s, Submit(w)); Inv(t) && Grows(s, t)
  {
    if w in s.workers && s.workers[w].stage.Ready? {
      var t := Step(s, Submit(w));
      assert WorkerOk(s, w);
      SubmitGrows(s, t, w);
      SubmitKeepsWorkers(s, t, w);
      LogStaysOk(s, t);
      SubmitKeepsSentOk(s, t, |s.sent|, s.workers[w].intent.intentId);
    }
  }

  lemma SubmitGrows(s: World, t: World, w: nat)
    requires WorkersOk(s) && w in s.workers && s.workers[w].stage.Ready? && t == Step(s, Submit(w))
    ensures Grows(s, t)
    ensures forall i :: WasSent(t, i) <==> WasSent(s, i) || i == s.workers[w].intent.intentId
  {
    var id := s.workers[w].intent.intentId;
    assert WorkerOk(s, w);
    assert IsSubmissionOf(t.sent[|s.sent|], id);
    forall i
      ensures WasSent(t, i) <==> WasSent(s, i) || i == id
    {
      if WasSent(s, i) {
        SentGrows(s, t, i);
      }
    }
    assert forall i :: Live(t, i) ==> Live(s, i);
    assert Live(s, id);
  }

  lemma SubmitKeepsWorkers(s: World, t: World, w: nat)
    requires WorkersOk(s) && w in s.workers && s.workers[w].stage.Ready? && t == Step(s, Submit(w))
    requires Grows(s, t)
    requires forall i :: WasSent(t, i) <==> WasSent(s, i) || i == s.workers[w].intent.intentId
    ensures WorkersOk(t)
  {
    assert WorkerOk(s, w);
    forall v | v in t.workers && v != w
      ensures WorkerOk(t, v)
    {
      assert WorkerOk(s, v);
      WorkerStaysOk(s, t, v);
    }
  }

  lemma SubmitKeepsSentOk(s: World, t: World, n: nat, id: Id)
    requires SentOk(s) && !WasSent(s, id) && id in s.claims && t.claims == s.claims
    requires n == |s.sent| && |t.sent| == n + 1 && t.sent[..n] == s.sent
    requires Guarded(t.sent[n]) && t.sent[n].intent.intentId == id
    ensures SentOk(t)
  {
    forall k | 0 <= k < n
      ensures t.sent[k].intent.intentId != id
    {
      assert t.sent[k] == s.sent[k];
      assert !IsSubmissionOf(s.sent[k], id);
    }
  }

  lemma AnswerKeepsInv(s: World, w: nat, replying: Replying)
    requires Inv(s)
    ensures var t := Step(s, Answer(w, replying)); Inv(t) && Grows(s, t)
  {
    if w in s.workers && s.workers[w].stage.Waiting? && 0.0 < s.workers[w].intent.pointSize {
      assert WorkerOk(s, w);
      var intent := s.workers[w].intent;
      var t := Step(s, Answer(w, replying));
      match AfterSubmit(intent, s.workers[w].stage.observation, replying) {
        case None =>
          assert t == Moved(s.(duplicates := s.duplicates), w, Ended);
          MoveKeepsInv(s, w, Ended, s.duplicates);
        case Some(result) =>
          AnswersCarryTheSpread(intent, s.workers[w].stage.observation, replying);
          AnswerGivenKeepsInv(s, t, w, result);
      }
    }
  }

  lemma AnswersCarryTheSpread(intent: Intent, o: Observation, replying: Replying)
    requires 0.0 < intent.pointSize
    ensures var r := AfterSubmit(intent, o, replying);
            r.Some? ==> r.value.intentId == intent.intentId && !OfRefusedCaller(r.value)
  {
  }

  lemma AnswerGivenKeepsInv(s: World, t: World, w: nat, result: ExecutionResult)
    requires Inv(s) && w in s.workers && s.workers[w].stage.Waiting?
    requires result.intentId == s.workers[w].intent.intentId && !OfRefusedCaller(result)
    requires t == Moved(s.(replies := s.replies[result.intentId := result]), w, Writing(result))
    ensures Inv(t) && Grows(s, t)
  {
    assert WorkerOk(s, w);
    AnswerGrows(s, t, w, result);
    forall v | v in t.workers && v != w
      ensures WorkerOk(t, v)
    {
      assert WorkerOk(s, v);
      assert WasSent(t, s.workers[v].intent.intentId) ==> WasSent(s, s.workers[v].intent.intentId);
      WorkerStaysOk(s, t, v);
    }
    LogStaysOk(s, t);
  }

  lemma AnswerGrows(s: World, t: World, w: nat, result: ExecutionResult)
    requires w in s.workers && WorkerOk(s, w) && s.workers[w].stage.Waiting?
    requires result.intentId == s.workers[w].intent.intentId
    requires t == Moved(s.(replies := s.replies[result.intentId := result]), w, Writing(result))
    ensures Grows(s, t)
  {
    assert forall id :: WasSent(t, id) == WasSent(s, id);
    assert forall id :: Live(t, id) ==> Live(s, id);
  }

  // Only the ledger changed, and it only grew.
  lemma LogChangeGrows(s: World, t: World)
    requires WorkersOk(s) && SentOk(s)
    requires t == s.(log := t.log) && s.log <= t.log
    ensures Grows(s, t) && WorkersOk(t) && SentOk(t)
  {
    assert forall id :: Live(t, id) == Live(s, id);
    assert Grows(s, t);
    forall v | v in t.workers
      ensures WorkerOk(t, v)
    {
      assert WorkerOk(s, v);
      WorkerStaysOk(s, t, v);
    }
  }

  // Appending to the ledger something that reserves nothing.
  lemma LogWriteKeepsInv(s: World, call: LedgerCall)
    requires Inv(s)
    requires call.Record? ==> Justified(s, call.result)
    requires call.Record? || call.Reconcile?
    ensures var t := s.(log := LogStep(s.log, call).1); Inv(t) && Grows(s, t)
  {
    var t := s.(log := LogStep(s.log, call).1);
    StepKeepsWellFormed(s.log, call);
    LogChangeGrows(s, t);
    if t.log == s.log {
      LogStaysOk(s, t);
    } else {
      RowKeepsLogOk(s, t, t.log[|s.log|]);
    }
  }

  lemma ReconciliationKeepsInv(s: World, report: Report)
    requires Inv(s)
    ensures var t := Step(s, WriteReconciliation(report)); Inv(t) && Grows(s, t)
  {
    LogWriteKeepsInv(s, Reconcile(report));
    assert Step(s, WriteReconciliation(report)) == s.(log := LogStep(s.log, Reconcile(report)).1);
  }

  lemma WriteKeepsInv(s: World, w: nat)
    requires Inv(s)
    ensures var t := Step(s, Write(w)); Inv(t) && Grows(s, t)
  {
    if w in s.workers && s.workers[w].stage.Writing? {
      assert WorkerOk(s, w);
      var result := s.workers[w].stage.result;
      LogWriteKeepsInv(s, Record(result));
      var s' := s.(log := LogStep(s.log, Record(result)).1);
      assert WorkerOk(s', w);
      assert Step(s, Write(w)) == Moved(s'.(duplicates := s'.duplicates), w, Ended);
      MoveKeepsInv(s', w, Ended, s'.duplicates);
    }
  }

  lemma StepKeepsInv(s: World, a: Action)
    requires Inv(s)
    ensures Inv(Step(s, a)) && Grows(s, Step(s, a))
  {
    match a {
      case Crash(w) => CrashKeepsInv(s, w);
      case WriteReconciliation(report) => ReconciliationKeepsInv(s, report);
      case _ =>
        if a.Call? || a.Lookup? || a.Claim? {
          CallerKeepsInv(s, a);
        } else {
          HolderKeepsInv(s, a);
        }
    }
  }

  lemma CallerKeepsInv(s: World, a: Action)
    requires Inv(s) && (a.Call? || a.Lookup? || a.Claim?)
    ensures Inv(Step(s, a)) && Grows(s, Step(s, a))
  {
    match a {
      case Call(w, policy, intent) => CallKeepsInv(s, w, policy, intent);
      case Lookup(w) => LookupKeepsInv(s, w);
      case Claim(w) => ClaimKeepsInv(s, w);
    }
  }

  lemma HolderKeepsInv(s: World, a: Action)
    requires Inv(s) && (a.Check? || a.Submit? || a.Answer? || a.Write?)
    ensures Inv(Step(s, a)) && Grows(s, Step(s, a))
  {
    match a {
      case Check(w, observing, validating) => CheckKeepsInv(s, w, observing, validating);
      case Submit(w) => SubmitKeepsInv(s, w);
      case Answer(w, replying) => AnswerKeepsInv(s, w, replying);
      case Write(w) => WriteKeepsInv(s, w);
    }
  }

  lemma {:induction false} RunKeepsInv(s: World, actions: seq<Action>)
    requires Inv(s)
    ensures Inv(Run(s, actions)) && Grows(s, Run(s, actions))
    decreases |actions|
  {
    if actions != [] {
      StepKeepsInv(s, actions[0]);
      RunKeepsInv(Step(s, actions[0]), actions[1..]);
    }
  }

  // ----- The guarantees -----

  // At most once: however the adapters interleave and wherever they crash, no intent is
  // submitted twice, and every submission was made in demo mode, by an adapter the intent
  // is bound to, on an observation inside every preflight bound.
  lemma AtMostOneSubmission(actions: seq<Action>)
    ensures var sent := Run(START, actions).sent;
            && (forall j, k :: 0 <= j < k < |sent| ==> sent[j].intent.intentId != sent[k].intent.intentId)
            && (forall k :: 0 <= k < |sent| ==> Guarded(sent[k]))
  {
    RunKeepsInv(START, actions);
  }

  // The first result recorded for an intent is never replaced, and what was submitted or
  // written is never taken back.
  lemma FirstResultStands(before: seq<Action>, after: seq<Action>, id: Id)
    requires Recorded(Run(START, before).log, id).Some?
    ensures Recorded(Run(START, before + after).log, id) == Recorded(Run(START, before).log, id)
    ensures Run(START, before).log <= Run(START, before + after).log
    ensures Run(START, before).sent <= Run(START, before + after).sent
  {
    var middle := Run(START, before);
    RunKeepsInv(START, before);
    RunInTwoParts(START, before, after);
    RunKeepsInv(middle, after);
    RecordedStands(middle.log, Run(middle, after).log, id);
  }

  lemma RecordedStands(log: Log, longer: Log, id: Id)
    requires log <= longer && WellFormed(longer) && Recorded(log, id).Some?
    ensures Recorded(longer, id) == Recorded(log, id)
  {
    var row := ResultRecorded(Recorded(log, id).value);
    var k :| 0 <= k < |log| && log[k] == row;
    assert longer[k] == row;
    RecordedSome(longer, k);
    var row' := ResultRecorded(Recorded(longer, id).value);
    var j :| 0 <= j < |longer| && longer[j] == row';
    assert j == k;
  }

  // A known result is the truth about the broker: it is what the transport answered for
  // this intent, or the intent was never submitted and never will be. UNKNOWN is the only
  // result that may hide an answer, and only when a second caller found the intent reserved.
  lemma RecordedResultsAreHonest(before: seq<Action>, after: seq<Action>, id: Id)
    requires Recorded(Run(START, before).log, id).Some?
    ensures var r := Recorded(Run(START, before).log, id).value;
            var now := Run(START, before);
            var later := Run(START, before + after);
            || (id in now.replies && r == now.replies[id] && WasSent(now, id))
            || !WasSent(later, id)
            || (OfRefusedCaller(r) && id in now.duplicates)
  {
    var now := Run(START, before);
    RunKeepsInv(START, before);
    RunInTwoParts(START, before, after);
    RunKeepsInv(now, after);
    var r := Recorded(now.log, id).value;
    assert Justified(now, r);
    if Closed(now, id) {
      assert Closed(Run(now, after), id);
    }
  }

  // What an action writes for an intent, if it is a write and the writer got that far.
  function WrittenBy(s: World, a: Action, id: Id): Option<ExecutionResult> {
    if a.Write? && a.worker in s.workers && s.workers[a.worker].stage.Writing?
       && s.workers[a.worker].stage.result.intentId == id then
      Some(s.workers[a.worker].stage.result)
    else
      None
  }

  // The first write for an intent in a whole run.
  function FirstWritten(actions: seq<Action>, id: Id): Option<ExecutionResult>
    decreases |actions|
  {
    if actions == [] then
      None
    else
      var n := |actions| - 1;
      var earlier := FirstWritten(actions[..n], id);
      if earlier.Some? then earlier else WrittenBy(Run(START, actions[..n]), actions[n], id)
  }

  // Of any number of writers for an intent the first decides: the ledger holds what it wrote.
  lemma {:induction false} FirstWriterDecides(actions: seq<Action>, id: Id)
    ensures Recorded(Run(START, actions).log, id) == FirstWritten(actions, id)
    decreases |actions|
  {
    if actions != [] {
      var n := |actions| - 1;
      var before := Run(START, actions[..n]);
      FirstWriterDecides(actions[..n], id);
      RunKeepsInv(START, actions[..n]);
      assert actions == actions[..n] + [actions[n]];
      RunInTwoParts(START, actions[..n], [actions[n]]);
      RunOne(before, actions[n]);
      OneStepRecords(before, actions[n], id);
    }
  }

  lemma OneStepRecords(s: World, a: Action, id: Id)
    requires Inv(s)
    ensures Recorded(Step(s, a).log, id) ==
            if Recorded(s.log, id).Some? then Recorded(s.log, id) else WrittenBy(s, a, id)
  {
    match a {
      case Write(w) => WriteRecords(s, w, id);
      case Claim(w) => ClaimRecords(s, w, id);
      case WriteReconciliation(report) => AppendReads(s.log, ReconciliationRecorded(report));
      case _ => OthersLeaveTheLog(s, a);
    }
  }

  lemma OthersLeaveTheLog(s: World, a: Action)
    requires !a.Write? && !a.Claim? && !a.WriteReconciliation?
    ensures Step(s, a).log == s.log
  {
  }

  lemma ClaimRecords(s: World, w: nat, id: Id)
    ensures Recorded(Step(s, Claim(w)).log, id) == Recorded(s.log, id)
  {
    if w in s.workers && s.workers[w].stage == Claiming {
      AppendReads(s.log, Reserved(s.workers[w].intent));
    }
  }

  lemma WriteRecords(s: World, w: nat, id: Id)
    requires WorkersOk(s) && LogOk(s)
    ensures Recorded(Step(s, Write(w)).log, id) ==
            if Recorded(s.log, id).Some? then Recorded(s.log, id) else WrittenBy(s, Write(w), id)
  {
    if w in s.workers && s.workers[w].stage.Writing? {
      assert WorkerOk(s, w);
      AppendReads(s.log, ResultRecorded(s.workers[w].stage.result));
    }
  }

  // Once the transport has answered, the ledger holds its answer exactly when something was
  // written for the intent and the first to write was not a caller that found it reserved.
  lemma AnswerIsHeldExactlyWhen(actions: seq<Action>, id: Id)
    requires id in Run(START, actions).replies
    ensures var end := Run(START, actions);
            Recorded(end.log, id) == Some(end.replies[id]) <==>
            FirstWritten(actions, id).Some? && !OfRefusedCaller(FirstWritten(actions, id).value)
  {
    FirstWriterDecides(actions, id);
    RunKeepsInv(START, actions);
    var end := Run(START, actions);
    assert WasSent(end, id);
    if Recorded(end.log, id).Some? {
      assert Justified(end, Recorded(end.log, id).value);
    }
  }

  // UNKNOWN really can hide an answer: a second call that arrives between the reservation
  // and the answer records UNKNOWN first, and the answer of the submission that was made is
  // then refused by the ledger.
  lemma DuplicateCallHidesTheAnswer(
    policy: Policy, intent: Intent, observing: Observing, validating: Validating, replying: Replying)
    requires ValidIntent(intent) && Binds(policy, intent)
    requires BeforeSubmit(policy, intent, observing, validating).Proceed?
    requires replying.Reported? && ValidReport(replying.report)
    ensures var id := intent.intentId;
            var first := [Call(0, policy, intent), Lookup(0), Claim(0)];
            var second := [Call(1, policy, intent), Lookup(1), Claim(1), Write(1)];
            var third := [Check(0, observing, validating), Submit(0), Answer(0, replying), Write(0)];
            var end := Run(START, first + (second + third));
            && WasSent(end, id)
            && id in end.replies && end.replies[id].status != UNKNOWN
            && Recorded(end.log, id) == Some(UnknownResult(intent, DUPLICATE_REASON, None))
  {
    var first := [Call(0, policy, intent), Lookup(0), Claim(0)];
    var second := [Call(1, policy, intent), Lookup(1), Claim(1), Write(1)];
    var third := [Check(0, observing, validating), Submit(0), Answer(0, replying), Write(0)];
    FirstCallerClaims(policy, intent);
    SecondCallerWritesUnknown(policy, intent);
    AnswerIsRefused(policy, intent, observing, validating, replying);
    RunInThreeParts(START, first, second, third);
  }

  lemma RunInThreeParts(s: World, first: seq<Action>, second: seq<Action>, third: seq<Action>)
    ensures Run(s, first + (second + third)) == Run(Run(Run(s, first), second), third)
  {
    RunInTwoParts(s, first, second + third);
    RunInTwoParts(Run(s, first), second, third);
  }

  function Claimed(policy: Policy, intent: Intent): World {
    World([Reserved(intent)], map[0 := Worker(policy, intent, Holding)], [], map[intent.intentId := 0], map[], {})
  }

  function Duplicated(policy: Policy, intent: Intent): World {
    World([Reserved(intent), ResultRecorded(UnknownResult(intent, DUPLICATE_REASON, None))],
          map[0 := Worker(policy, intent, Holding), 1 := Worker(policy, intent, Ended)],
          [], map[intent.intentId := 0], map[], {intent.intentId})
  }

  lemma FirstCallerClaims(policy: Policy, intent: Intent)
    requires ValidIntent(intent) && Binds(policy, intent)
    ensures Run(START, [Call(0, policy, intent), Lookup(0), Claim(0)]) == Claimed(policy, intent)
  {
    var actions := [Call(0, policy, intent), Lookup(0), Claim(0)];
    var called := START.(workers := map[0 := Worker(policy, intent, Calling)]);
    assert Step(START, actions[0]) == called;
    assert Step(called, actions[1]) == START.(workers := map[0 := Worker(policy, intent, Claiming)]);
    assert [] + [Reserved(intent)] == [Reserved(intent)];
    RunThree(START, actions);
  }

  lemma SecondCallerWritesUnknown(policy: Policy, intent: Intent)
    requires ValidIntent(intent) && Binds(policy, intent)
    ensures Run(Claimed(policy, intent), [Call(1, policy, intent), Lookup(1), Claim(1), Write(1)])
         == Duplicated(policy, intent)
  {
    var s := Claimed(policy, intent);
    SecondCallerCalls(policy, intent);
    SecondCallerIsRefused(policy, intent);
    RunFour(s, [Call(1, policy, intent), Lookup(1), Claim(1), Write(1)]);
  }

  // The world while the second caller is at a stage.
  function Contended(policy: Policy, intent: Intent, stage: Stage): World {
    var s := Claimed(policy, intent);
    s.(workers := s.workers[1 := Worker(policy, intent, stage)])
  }

  lemma SecondCallerCalls(policy: Policy, intent: Intent)
    requires ValidIntent(intent) && Binds(policy, intent)
    ensures Step(Claimed(policy, intent), Call(1, policy, intent)) == Contended(policy, intent, Calling)
    ensures Step(Contended(policy, intent, Calling), Lookup(1)) == Contended(policy, intent, Claiming)
    ensures IsReserved(Claimed(policy, intent).log, intent.intentId)
    ensures Recorded(Claimed(policy, intent).log, intent.intentId).None?
  {
    var s := Claimed(policy, intent);
    assert s.log == [] + [Reserved(intent)];
    AppendReads([], Reserved(intent));
    assert Contended(policy, intent, Claiming).workers ==
           Contended(policy, intent, Calling).workers[1 := Worker(policy, intent, Claiming)];
  }

  lemma SecondCallerIsRefused(policy: Policy, intent: Intent)
    requires IsReserved(Claimed(policy, intent).log, intent.intentId)
    requires Recorded(Claimed(policy, intent).log, intent.intentId).None?
    ensures Step(Step(Contended(policy, intent, Claiming), Claim(1)), Write(1)) == Duplicated(policy, intent)
  {
    var unknown := UnknownResult(intent, DUPLICATE_REASON, None);
    var a := Contended(policy, intent, Writing(unknown)).(duplicates := {intent.intentId});
    assert Step(Contended(policy, intent, Claiming), Claim(1)) == a;
    assert a.log + [ResultRecorded(unknown)] == Duplicated(policy, intent).log;
    assert a.workers[1 := Worker(policy, intent, Ended)] == Duplicated(policy, intent).workers;
  }

  lemma AnswerIsRefused(
    policy: Policy, intent: Intent, observing: Observing, validating: Validating, replying: Replying)
    requires ValidIntent(intent)
    requires BeforeSubmit(policy, intent, observing, validating).Proceed?
    requires replying.Reported? && ValidReport(replying.report)
    ensures var id := intent.intentId;
            var end := Run(Duplicated(policy, intent),
                           [Check(0, observing, validating), Submit(0), Answer(0, replying), Write(0)]);
            && WasSent(end, id)
            && id in end.replies && end.replies[id].status != UNKNOWN
            && Recorded(end.log, id) == Some(UnknownResult(intent, DUPLICATE_REASON, None))
  {
    var s := Duplicated(policy, intent);
    var actions := [Check(0, observing, validating), Submit(0), Answer(0, replying), Write(0)];
    var o := BeforeSubmit(policy, intent, observing, validating).observation;
    var answer := AfterSubmit(intent, o, replying).value;
    var submitted := Submitted(s, policy, intent, o);
    CheckThenSubmit(policy, intent, observing, validating, o);
    AnswerIsKnown(intent, o, replying);
    AnswerStep(s, policy, intent, o, replying, answer);
    RunFour(s, actions);
    AnswerMeetsARecord(Step(submitted, Answer(0, replying)), answer, intent);
    assert IsSubmissionOf(submitted.sent[0], intent.intentId);
  }

  lemma AnswerIsKnown(intent: Intent, o: Observation, replying: Replying)
    requires 0.0 < intent.pointSize && replying.Reported? && ValidReport(replying.report)
    ensures var r := AfterSubmit(intent, o, replying);
            r.Some? && r.value.status != UNKNOWN && r.value.intentId == intent.intentId
  {
  }

  lemma AnswerStep(
    s: World, policy: Policy, intent: Intent, o: Observation, replying: Replying, answer: ExecutionResult)
    requires 0.0 < intent.pointSize && AfterSubmit(intent, o, replying) == Some(answer)
    requires s.replies == map[]
    ensures var t := Step(Submitted(s, policy, intent, o), Answer(0, replying));
            && t.log == s.log
            && t.sent == [Submission(intent, policy, o)]
            && t.replies == map[intent.intentId := answer]
            && 0 in t.workers && t.workers[0].stage == Writing(answer)
  {
  }

  function Submitted(s: World, policy: Policy, intent: Intent, o: Observation): World {
    s.(workers := s.workers[0 := Worker(policy, intent, Waiting(o))], sent := [Submission(intent, policy, o)])
  }

  lemma CheckThenSubmit(policy: Policy, intent: Intent, observing: Observing, validating: Validating, o: Observation)
    requires ValidIntent(intent)
    requires BeforeSubmit(policy, intent, observing, validating) == Proceed(o)
    ensures var s := Duplicated(policy, intent);
            Step(Step(s, Check(0, observing, validating)), Submit(0)) == Submitted(s, policy, intent, o)
  {
    var s := Duplicated(policy, intent);
    var a := Step(s, Check(0, observing, validating));
    assert a == s.(workers := s.workers[0 := Worker(policy, intent, Ready(o))]);
    assert a.workers[0 := Worker(policy, intent, Waiting(o))] == s.workers[0 := Worker(policy, intent, Waiting(o))];
  }

  lemma AnswerMeetsARecord(s: World, answer: ExecutionResult, intent: Intent)
    requires 0 in s.workers && s.workers[0].stage == Writing(answer) && answer.intentId == intent.intentId
    requires s.log == [Reserved(intent), ResultRecorded(UnknownResult(intent, DUPLICATE_REASON, None))]
    ensures Step(s, Write(0)).log == s.log
    ensures Recorded(s.log, intent.intentId) == Some(UnknownResult(intent, DUPLICATE_REASON, None))
  {
    var unknown := UnknownResult(intent, DUPLICATE_REASON, None);
    assert s.log == [Reserved(intent)] + [ResultRecorded(unknown)];
    AppendReads([Reserved(intent)], ResultRecorded(unknown));
  }

  lemma RunOne(s: World, a: Action)
    ensures Run(s, [a]) == Step(s, a)
  {
    assert [a][1..] == [];
  }

  lemma RunThree(s: World, a: seq<Action>)
    requires |a| == 3
    ensures Run(s, a) == Step(Step(Step(s, a[0]), a[1]), a[2])
  {
    var b := a[1..];
    var c := b[1..];
    var s1 := Step(s, a[0]);
    var s2 := Step(s1, b[0]);
    assert Run(s, a) == Run(s1, b);
    assert Run(s1, b) == Run(s2, c);
    assert c[1..] == [];
    assert Run(s2, c) == Step(s2, c[0]);
  }

  lemma RunFour(s: World, a: seq<Action>)
    requires |a| == 4
    ensures Run(s, a) == Step(Step(Step(Step(s, a[0]), a[1]), a[2]), a[3])
  {
    RunThree(Step(s, a[0]), a[1..]);
  }
}
