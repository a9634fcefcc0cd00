/**
 * The whole calls of `ReportJobCalls` as runs of the state machine of `ReportJobs`: what a call does from
 * its first statement to its last is what its steps do when no other step comes between them.
 */
module ReportRuns {
  import opened Common
  import opened ReportJobs
  import opened ReportClaims
  import opened ReportStalls
  import opened ReportJobCalls

  /** The state with these tables and with process `p` at `at` */
  function With(s: State, db: Db, p: nat, at: Proc): State {
    s.(db := db, procs := s.procs[p := at])
  }

  const ANY := InsufficientData

  lemma RunsOneStatement(s: State, db: Db, p: nat, at: Proc, report: ReportStatus)
    requires p !in s.procs && report in {FullReport, InsufficientData}
    ensures var (after, next) := Advance(db, at, report);
            StepsTo(With(s, db, p, at), Run(p, report),
                    if next.Some? then With(s, after, p, next.value) else s.(db := after))
  {
    hide Advance;
    var from := With(s, db, p, at);
    assert from.procs - {p} == s.procs;
    var next := Advance(db, at, report).1;
    if next.Some? {
      assert from.procs[p := next.value] == s.procs[p := next.value];
    }
  }

  lemma RaisesOnce(s: State, db: Db, p: nat, at: Proc, retryable: bool)
    requires p !in s.procs && InRun(at)
    ensures StepsTo(With(s, db, p, at), Raise(p, retryable), With(s, db, p, Raised(at, retryable)))
  {
    hide Raised, InRun;
    var from := With(s, db, p, at);
    assert from.procs[p := Raised(at, retryable)] == s.procs[p := Raised(at, retryable)];
  }

  // ---------------------------------------------------------------------------------------
  // The exception handler
  // ---------------------------------------------------------------------------------------

  function HandlerSteps(p: nat): seq<Step> {
    [Run(p, ANY), Run(p, ANY), Run(p, ANY)]
  }

  lemma HandlerRuns(s: State, db: Db, p: nat, k: Key, j: JobId, claim: nat, retryable: bool)
    requires p !in s.procs
    ensures Leads(With(s, db, p, FailQuery(k, j, claim, retryable)), HandlerSteps(p),
                  With(s, Handled(db, k, j), p, RecordFailure(k, j, claim, retryable)))
  {
    hide StepsTo, Leads, SetQuery, SetJob, PutReport;
    var a, b, c := FailQuery(k, j, claim, retryable), FailJob(k, j, claim, retryable), FixReport(k, j, claim, retryable);
    var db1 := Advance(db, a, ANY).0;
    var db2 := Advance(db1, b, ANY).0;
    RunsOneStatement(s, db, p, a, ANY);
    RunsOneStatement(s, db1, p, b, ANY);
    RunsOneStatement(s, db2, p, c, ANY);
    var end := RecordFailure(k, j, claim, retryable);
    ThreeSteps(With(s, db, p, a), Run(p, ANY), With(s, db1, p, b), Run(p, ANY), With(s, db2, p, c), Run(p, ANY),
               With(s, Handled(db, k, j), p, end));
  }

  lemma HandledMeans(db: Db, k: Key, j: JobId)
    requires HasJob(db, j, k)
    ensures var after := Handled(db, k, j);
            && after.queries == db.queries[k := Failed]
            && after.jobs == db.jobs[j := Job(k, Failed)]
            && after.reports == (if k in db.reports && db.reports[k] == Generating
                                 then db.reports[k := InsufficientData] else db.reports)
            && after.charges == db.charges && after.outbox == db.outbox
  {
  }

  lemma HandlerLeads(s: State, p: nat, retryable: bool)
    requires p in s.procs && Guarded(s.procs[p])
    ensures var at := s.procs[p];
            Leads(s, [Raise(p, retryable)] + HandlerSteps(p),
                  s.(db := Handled(s.db, at.query, at.job),
                     procs := s.procs[p := RecordFailure(at.query, at.job, at.claim, retryable)]))
  {
    hide Leads, StepsTo, Handled, HandlerSteps;
    var at := s.procs[p];
    var others := s.(procs := s.procs - {p});
    var end := RecordFailure(at.query, at.job, at.claim, retryable);
    var failing := FailQuery(at.query, at.job, at.claim, retryable);
    assert With(others, s.db, p, at) == s by { assert others.procs[p := at] == s.procs; }
    assert others.procs[p := end] == s.procs[p := end];
    RaisesOnce(others, s.db, p, at, retryable);
    HandlerRuns(others, s.db, p, at.query, at.job, at.claim, retryable);
    assert Raised(at, retryable) == failing;
    LeadsFirst(s, Raise(p, retryable), With(others, s.db, p, failing), HandlerSteps(p),
               With(others, Handled(s.db, at.query, at.job), p, end));
  }

  /** An exception anywhere inside the try block, in any reachable state and whether or not the worker
      still holds its claim: three statements later query and job are failed, no report of the query is
      being generated, and only the worker's record is left to do. */
  lemma HandlerAfterRaise(s: State, p: nat, retryable: bool)
    requires Inv(s) && p in s.procs && Guarded(s.procs[p])
    ensures var at := s.procs[p];
            exists t ::
              && Leads(s, [Raise(p, retryable)] + HandlerSteps(p), t)
              && at.query in t.db.queries && t.db.queries[at.query] == Failed
              && at.job < |t.db.jobs| && t.db.jobs[at.job] == Job(at.query, Failed)
              && (at.query in t.db.reports ==> t.db.reports[at.query] != Generating)
              && t.db.outbox == s.db.outbox && t.db.charges == s.db.charges && t.creates == s.creates
              && t.procs == s.procs[p := RecordFailure(at.query, at.job, at.claim, retryable)]
  {
    var at := s.procs[p];
    assert ValidProc(s.db, at) by { hide Consistent, ValidPlan, ValidProc; }
    hide Inv, Leads, Handled, HandlerSteps;
    HandlerLeads(s, p, retryable);
    HandledMeans(s.db, at.query, at.job);
  }

  /** An exception outside the try block of a run goes to the worker's record at once. */
  lemma RecordAfterRaise(s: State, p: nat, retryable: bool)
    requires p in s.procs && InRun(s.procs[p]) && !Guarded(s.procs[p])
    ensures var at := s.procs[p];
            Leads(s, [Raise(p, retryable)] + [Run(p, ANY)],
                  s.(db := Record(s.db, at.query, at.job, at.claim, retryable), procs := s.procs - {p}))
  {
    var at := s.procs[p];
    var others := s.(procs := s.procs - {p});
    assert With(others, s.db, p, at) == s by { assert others.procs[p := at] == s.procs; }
    RaisesOnce(others, s.db, p, at, retryable);
    var raised := RecordFailure(at.query, at.job, at.claim, retryable);
    assert Raised(at, retryable) == raised;
    RecordRuns(others, s.db, p, raised.query, raised.job, raised.claim, retryable);
    hide StepsTo, Record, Leads;
    LeadsFirst(s, Raise(p, retryable), With(others, s.db, p, raised), [Run(p, ANY)],
               others.(db := Record(s.db, at.query, at.job, at.claim, retryable)));
  }

  lemma RecordRuns(s: State, db: Db, p: nat, k: Key, j: JobId, claim: nat, retryable: bool)
    requires p !in s.procs
    ensures Leads(With(s, db, p, RecordFailure(k, j, claim, retryable)), [Run(p, ANY)],
                  s.(db := Record(db, k, j, claim, retryable)))
  {
    var at := RecordFailure(k, j, claim, retryable);
    var t := s.(db := Record(db, k, j, claim, retryable));
    RunsOneStatement(s, db, p, at, ANY);
    assert Advance(db, at, ANY) == (Record(db, k, j, claim, retryable), None) by { hide Record; }
    hide StepsTo, Record, Advance;
    assert Leads(t, [], t);
    LeadsFirst(With(s, db, p, at), Run(p, ANY), t, [], t);
    assert [Run(p, ANY)] + [] == [Run(p, ANY)];
  }

  // ---------------------------------------------------------------------------------------
  // One delivery
  // ---------------------------------------------------------------------------------------

  /** From an exception inside the try block to the end of the delivery */
  function FailureSteps(p: nat, retryable: bool): seq<Step> {
    [Raise(p, retryable)] + (HandlerSteps(p) + [Run(p, ANY)])
  }

  lemma FailureRuns(s: State, db: Db, p: nat, at: Proc, retryable: bool)
    requires p !in s.procs && Guarded(at)
    ensures Leads(With(s, db, p, at), FailureSteps(p, retryable),
                  s.(db := Record(Handled(db, at.query, at.job), at.query, at.job, at.claim, retryable)))
  {
    var k, j, claim := at.query, at.job, at.claim;
    var handled := Handled(db, k, j);
    var last := With(s, handled, p, RecordFailure(k, j, claim, retryable));
    var t := s.(db := Record(handled, k, j, claim, retryable));
    RaisesOnce(s, db, p, at, retryable);
    assert Raised(at, retryable) == FailQuery(k, j, claim, retryable);
    hide Raised, StepsTo, Leads, Record, Handled, HandlerSteps, With;
    HandlerRuns(s, db, p, k, j, claim, retryable);
    RecordRuns(s, handled, p, k, j, claim, retryable);
    LeadsOn(With(s, db, p, FailQuery(k, j, claim, retryable)), HandlerSteps(p), last, [Run(p, ANY)], t);
    LeadsFirst(With(s, db, p, at), Raise(p, retryable), With(s, db, p, FailQuery(k, j, claim, retryable)),
               HandlerSteps(p) + [Run(p, ANY)], t);
  }

  /** The steps of one delivery, for each way its run leaves the try block */
  function DeliverySteps(p: nat, j: JobId, end: Ending, retryable: bool): seq<Step> {
    [Deliver(p, j)] + ([Run(p, ANY)] + BodySteps(p, end, retryable))
  }

  function BodySteps(p: nat, end: Ending, retryable: bool): seq<Step> {
    match end
    case RaisesUnsaved => FailureSteps(p, retryable)
    case Finishes(r) => [Run(p, r)] + ([Run(p, ANY)] + ([Run(p, ANY)] + [Run(p, ANY)]))
    case RaisesSaved(r) => [Run(p, r)] + FailureSteps(p, retryable)
    case RaisesMarked(r) => [Run(p, r)] + ([Run(p, ANY)] + FailureSteps(p, retryable))
    case RaisesCompleted(r) => [Run(p, r)] + ([Run(p, ANY)] + ([Run(p, ANY)] + FailureSteps(p, retryable)))
  }

  /** What is left of a run when its try block begins */
  function Finished(db: Db, k: Key, j: JobId, claim: nat, end: Ending, retryable: bool): Db {
    var ran := Worked(db, k, j, end);
    if end.Finishes? then CompleteClaim(ran, j, claim) else Record(ran, k, j, claim, retryable)
  }

  function Worked(db: Db, k: Key, j: JobId, end: Ending): Db {
    if end.RaisesUnsaved? then Handled(db, k, j)
    else
      var saved := PutReport(db, k, end.report);
      if end.RaisesSaved? then Handled(saved, k, j)
      else
        var marked := SetQuery(saved, k, Completed);
        if end.RaisesMarked? then Handled(marked, k, j)
        else
          var completed := SetJob(marked, j, Completed);
          if end.RaisesCompleted? then Handled(completed, k, j) else completed
  }

  lemma GeneratedIsWorked(db: Db, k: Key, j: JobId, end: Ending)
    ensures Generated(db, k, j, end) == Worked(SetJob(db, j, Running), k, j, end)
  {
    hide SetJob, SetQuery, PutReport, Handled;
  }

  lemma BodyRuns(s: State, db: Db, p: nat, k: Key, j: JobId, claim: nat, end: Ending, retryable: bool)
    requires p !in s.procs && Produced(end)
    ensures Leads(With(s, db, p, Save(k, j, claim)), BodySteps(p, end, retryable),
                  s.(db := Finished(db, k, j, claim, end, retryable)))
  {
    hide Leads, StepsTo, FailureSteps, SetJob, SetQuery, PutReport, Handled, Record, CompleteClaim;
    var t := s.(db := Finished(db, k, j, claim, end, retryable));
    if end.RaisesUnsaved? {
      FailureRuns(s, db, p, Save(k, j, claim), retryable);
    } else {
      var rest := BodySteps(p, end, retryable)[1..];
      var saved := PutReport(db, k, end.report);
      RunsOneStatement(s, db, p, Save(k, j, claim), end.report);
      SavedRuns(s, saved, p, k, j, claim, end, retryable);
      LeadsFirst(With(s, db, p, Save(k, j, claim)), Run(p, end.report), With(s, saved, p, CompleteQuery(k, j, claim)),
                 SavedSteps(p, end, retryable), t);
    }
  }

  function SavedSteps(p: nat, end: Ending, retryable: bool): seq<Step> {
    if end.Finishes? then [Run(p, ANY)] + ([Run(p, ANY)] + [Run(p, ANY)])
    else if end.RaisesMarked? then [Run(p, ANY)] + FailureSteps(p, retryable)
    else if end.RaisesCompleted? then [Run(p, ANY)] + ([Run(p, ANY)] + FailureSteps(p, retryable))
    else FailureSteps(p, retryable)
  }

  lemma SavedRuns(s: State, saved: Db, p: nat, k: Key, j: JobId, claim: nat, end: Ending, retryable: bool)
    requires p !in s.procs && Produced(end) && !end.RaisesUnsaved?
    ensures var marked := SetQuery(saved, k, Completed);
            var completed := SetJob(marked, j, Completed);
            var ran := if end.Finishes? then completed
                       else Handled(if end.RaisesSaved? then saved else if end.RaisesMarked? then marked else completed, k, j);
            Leads(With(s, saved, p, CompleteQuery(k, j, claim)), SavedSteps(p, end, retryable),
                  s.(db := if end.Finishes? then CompleteClaim(ran, j, claim) else Record(ran, k, j, claim, retryable)))
  {
    hide Leads, StepsTo, FailureSteps, SetJob, SetQuery, PutReport, Handled, Record, CompleteClaim;
    var marked := SetQuery(saved, k, Completed);
    var completed := SetJob(marked, j, Completed);
    var a, b, c := CompleteQuery(k, j, claim), CompleteJob(k, j, claim), Settle(k, j, claim);
    RunsOneStatement(s, saved, p, a, ANY);
    RunsOneStatement(s, marked, p, b, ANY);
    RunsOneStatement(s, completed, p, c, ANY);
    if end.RaisesSaved? {
      FailureRuns(s, saved, p, a, retryable);
    } else if end.RaisesMarked? {
      FailureRuns(s, marked, p, b, retryable);
      var t := s.(db := Record(Handled(marked, k, j), k, j, claim, retryable));
      LeadsFirst(With(s, saved, p, a), Run(p, ANY), With(s, marked, p, b), FailureSteps(p, retryable), t);
    } else if end.RaisesCompleted? {
      FailureRuns(s, completed, p, c, retryable);
      var t := s.(db := Record(Handled(completed, k, j), k, j, claim, retryable));
      LeadsFirst(With(s, marked, p, b), Run(p, ANY), With(s, completed, p, c), FailureSteps(p, retryable), t);
      LeadsFirst(With(s, saved, p, a), Run(p, ANY), With(s, marked, p, b), [Run(p, ANY)] + FailureSteps(p, retryable), t);
    } else {
      var t := s.(db := CompleteClaim(completed, j, claim));
      ThreeSteps(With(s, saved, p, a), Run(p, ANY), With(s, marked, p, b), Run(p, ANY), With(s, completed, p, c),
                 Run(p, ANY), t);
      assert [Run(p, ANY)] + ([Run(p, ANY)] + [Run(p, ANY)]) == [Run(p, ANY), Run(p, ANY), Run(p, ANY)];
    }
  }

  /** Whatever the ending and the verdict, a delivery of any deliverable job is a run of the state machine:
      its steps lead to the tables of `Processed`, with every other process where it was. */
  lemma ProcessedIsARun(s: State, p: nat, j: JobId, end: Ending, retryable: bool)
    requires p !in s.procs && Deliverable(s.db, j) && Produced(end)
    ensures Leads(s, DeliverySteps(p, j, end, retryable), s.(db := Processed(s.db, j, end, retryable)))
  {
    var k, claim := s.db.outbox[j].query, s.db.outbox[j].attempts + 1;
    var taken := Take(s.db, j);
    assert StepsTo(s, Deliver(p, j), With(s, taken, p, StartRun(k, j, claim))) by { hide Take, Deliverable; }
    ProcessedIsFinished(s.db, j, end, retryable);
    hide Leads, StepsTo, Take, Deliverable, BodySteps, Finished, Processed, SetJob, With;
    StartRuns(s, taken, p, k, j, claim, end, retryable);
    LeadsFirst(s, Deliver(p, j), With(s, taken, p, StartRun(k, j, claim)), [Run(p, ANY)] + BodySteps(p, end, retryable),
               s.(db := Processed(s.db, j, end, retryable)));
  }

  lemma ProcessedIsFinished(db: Db, j: JobId, end: Ending, retryable: bool)
    requires j in db.outbox
    ensures Processed(db, j, end, retryable) ==
            Finished(SetJob(Take(db, j), j, Running), db.outbox[j].query, j, db.outbox[j].attempts + 1, end, retryable)
  {
    hide Generated, Worked, SetJob, Take, Record, CompleteClaim;
    GeneratedIsWorked(Take(db, j), db.outbox[j].query, j, end);
  }

  lemma StartRuns(s: State, taken: Db, p: nat, k: Key, j: JobId, claim: nat, end: Ending, retryable: bool)
    requires p !in s.procs && Produced(end)
    ensures Leads(With(s, taken, p, StartRun(k, j, claim)), [Run(p, ANY)] + BodySteps(p, end, retryable),
                  s.(db := Finished(SetJob(taken, j, Running), k, j, claim, end, retryable)))
  {
    var started := SetJob(taken, j, Running);
    RunsOneStatement(s, taken, p, StartRun(k, j, claim), ANY);
    assert Advance(taken, StartRun(k, j, claim), ANY) == (started, Some(Save(k, j, claim))) by { hide SetJob; }
    hide Leads, StepsTo, BodySteps, Finished, SetJob, Advance, With;
    BodyRuns(s, started, p, k, j, claim, end, retryable);
    LeadsFirst(With(s, taken, p, StartRun(k, j, claim)), Run(p, ANY), With(s, started, p, Save(k, j, claim)),
               BodySteps(p, end, retryable), s.(db := Finished(started, k, j, claim, end, retryable)));
  }

  // ---------------------------------------------------------------------------------------
  // Legacy starts
  // ---------------------------------------------------------------------------------------

  function LastStep(p: nat, enqueueRaises: bool): Step {
    if enqueueRaises then Stop(p) else Run(p, ANY)
  }

  /** From the claim on */
  function ClaimSteps(db: Db, p: nat, j: JobId, enqueueRaises: bool): seq<Step> {
    if j < |db.jobs| && db.jobs[j].status in {Pending, Failed}
    then [Run(p, ANY), Run(p, ANY), LastStep(p, enqueueRaises)] else [Run(p, ANY)]
  }

  function LegacySteps(db: Db, p: nat, k: Key, enqueueRaises: bool): seq<Step> {
    match StartLegacy(db, k)
    case None => [Legacy(p, k)]
    case Some(at) =>
      if at.InsertMissing?
      then [Legacy(p, k)] + ([Run(p, ANY)] + ClaimSteps(InsertJob(db, k), p, |db.jobs|, enqueueRaises))
      else [Legacy(p, k)] + ClaimSteps(db, p, at.job, enqueueRaises)
  }

  /** The tables after a claim and what follows it */
  function AfterClaim(db: Db, k: Key, j: JobId, enqueueRaises: bool): Db {
    if j < |db.jobs| && db.jobs[j].status in {Pending, Failed} then
      var marked := SetQuery(SetJob(db, j, Running), k, Running);
      if enqueueRaises then marked else Enqueue(marked, j, k)
    else db
  }

  lemma ClaimRuns(s: State, db: Db, p: nat, k: Key, j: JobId, enqueueRaises: bool)
    requires p !in s.procs
    ensures Leads(With(s, db, p, Claim(k, j)), ClaimSteps(db, p, j, enqueueRaises),
                  s.(db := AfterClaim(db, k, j, enqueueRaises)))
  {
    hide StepsTo, SetJob, SetQuery, Enqueue;
    RunsOneStatement(s, db, p, Claim(k, j), ANY);
    var t := s.(db := AfterClaim(db, k, j, enqueueRaises));
    if j < |db.jobs| && db.jobs[j].status in {Pending, Failed} {
      var claimed := SetJob(db, j, Running);
      var marked := SetQuery(claimed, k, Running);
      RunsOneStatement(s, claimed, p, MarkQuery(k, j), ANY);
      RunsOneStatement(s, marked, p, EnqueueClaimed(k, j), ANY);
      StopsOnce(s, marked, p, EnqueueClaimed(k, j));
      hide Leads;
      ThreeSteps(With(s, db, p, Claim(k, j)), Run(p, ANY), With(s, claimed, p, MarkQuery(k, j)), Run(p, ANY),
                 With(s, marked, p, EnqueueClaimed(k, j)), LastStep(p, enqueueRaises), t);
    } else {
      assert Leads(t, [], t);
      LeadsFirst(With(s, db, p, Claim(k, j)), Run(p, ANY), t, [], t);
      assert [Run(p, ANY)] + [] == [Run(p, ANY)];
    }
  }

  lemma StopsOnce(s: State, db: Db, p: nat, at: Proc)
    requires p !in s.procs
    ensures StepsTo(With(s, db, p, at), Stop(p), s.(db := db))
  {
    assert With(s, db, p, at).procs - {p} == s.procs;
  }

  lemma StartedIsAfterClaim(db: Db, k: Key, enqueueRaises: bool)
    ensures LegacyStarted(db, k, enqueueRaises) ==
            match StartLegacy(db, k)
            case None => db
            case Some(at) =>
              if at.InsertMissing? then AfterClaim(InsertJob(db, k), k, |db.jobs|, enqueueRaises)
              else AfterClaim(db, k, at.job, enqueueRaises)
  {
    hide Latest, SetJob, SetQuery, Enqueue, InsertJob;
  }

  /** A legacy start is a run of the state machine as well. */
  lemma LegacyIsARun(s: State, p: nat, k: Key, enqueueRaises: bool)
    requires p !in s.procs && k in s.db.queries
    ensures Leads(s, LegacySteps(s.db, p, k, enqueueRaises), s.(db := LegacyStarted(s.db, k, enqueueRaises)))
  {
    var t := s.(db := LegacyStarted(s.db, k, enqueueRaises));
    StartedIsAfterClaim(s.db, k, enqueueRaises);
    StartIsLegacy(s.db, k);
    var start := StartLegacy(s.db, k);
    assert start.Some? ==> start.value == InsertMissing(k) || start.value == Claim(k, start.value.job) by { hide Latest; }
    assert s.procs - {p} == s.procs;
    assert StepsTo(s, Legacy(p, k), if start.Some? then With(s, s.db, p, start.value) else s) by { hide StartLegacy; }
    hide StepsTo, StartLegacy, LegacyStarted, AfterClaim, ClaimSteps;
    if start == None {
      assert Leads(t, [], t);
      LeadsFirst(s, Legacy(p, k), t, [], t);
      assert [Legacy(p, k)] + [] == [Legacy(p, k)];
    } else if start.value.InsertMissing? {
      hide Leads;
      var db := InsertJob(s.db, k);
      RunsOneStatement(s, s.db, p, InsertMissing(k), ANY);
      ClaimRuns(s, db, p, k, |s.db.jobs|, enqueueRaises);
      LeadsFirst(With(s, s.db, p, InsertMissing(k)), Run(p, ANY), With(s, db, p, Claim(k, |s.db.jobs|)),
                 ClaimSteps(db, p, |s.db.jobs|, enqueueRaises), t);
      LeadsFirst(s, Legacy(p, k), With(s, s.db, p, InsertMissing(k)),
                 [Run(p, ANY)] + ClaimSteps(db, p, |s.db.jobs|, enqueueRaises), t);
    } else {
      hide Leads;
      var j := start.value.job;
      ClaimRuns(s, s.db, p, k, j, enqueueRaises);
      LeadsFirst(s, Legacy(p, k), With(s, s.db, p, Claim(k, j)), ClaimSteps(s.db, p, j, enqueueRaises), t);
    }
  }

  /** The answer of a legacy start names the key's latest job, and a status only if the job then has it;
      it refuses exactly a job that can be neither shown nor claimed, or reports the failed enqueue. */
  lemma LegacyReplyTellsTheTruth(db: Db, k: Key, j: JobId, enqueueRaises: bool)
    requires k in db.queries && Latest(db.jobs, k) == Some(j)
    ensures var reply, after := LegacyReply(db, k, enqueueRaises), LegacyStarted(db, k, enqueueRaises);
            && |after.jobs| == |db.jobs|
            && (reply.Ok? ==> reply.value == (j, after.jobs[j].status) && after.jobs[j].status in {Completed, Running})
            && (reply == Err(AlreadyHandled) <==> db.jobs[j].status in {Succeeded, Unknown})
            && (reply == Err(EnqueueFailed) <==> db.jobs[j].status in {Pending, Failed} && enqueueRaises)
            && (reply.Err? ==> reply.error in {AlreadyHandled, EnqueueFailed})
  {
    hide Latest, Enqueued;
    match db.jobs[j].status
    case Pending =>
    case Running =>
    case Failed =>
    case Completed =>
    case Succeeded =>
    case Unknown =>
  }

  /** Without a job row the start makes one and answers for it. */
  lemma LegacyReplyWithoutJob(db: Db, k: Key, enqueueRaises: bool)
    requires k in db.queries && Latest(db.jobs, k) == None
    ensures var reply, after := LegacyReply(db, k, enqueueRaises), LegacyStarted(db, k, enqueueRaises);
            && after.jobs == db.jobs + [Job(k, Running)] && after.queries == db.queries[k := Running]
            && reply == (if enqueueRaises then Err(EnqueueFailed) else Ok((|db.jobs|, Running)))
  {
    hide Latest, Enqueued;
  }

  // ---------------------------------------------------------------------------------------
  // Create calls
  // ---------------------------------------------------------------------------------------

  /** The steps of a create call up to its last */
  function CreateReads(db: Db, k: Key): seq<Step> {
    if BeginCreate(db, k) == Proceed(Unread) then [Begin(k), Read(k)] else [Begin(k)]
  }

  /** An undisturbed create call that does not answer at once either commits the tables of its plan or,
      when the entitlement or the enqueue raises, leaves the state as it was. */
  lemma CreateIsARun(s: State, k: Key)
    requires k !in s.creates && BeginCreate(s.db, k).Proceed?
    ensures Leads(s, CreateReads(s.db, k) + [Commit(k)], s.(db := CommitCreate(s.db, k, PlanOf(s.db, k))))
    ensures Leads(s, CreateReads(s.db, k) + [Rollback(k)], s)
  {
    var plan := PlanOf(s.db, k);
    var held := s.(creates := s.creates[k := plan]);
    var t := s.(db := CommitCreate(s.db, k, plan));
    assert held.creates - {k} == s.creates;
    assert StepsTo(held, Commit(k), t) by { hide CommitCreate, BeginCreate, ReadJob; }
    assert StepsTo(held, Rollback(k), s) by { hide CommitCreate, BeginCreate, ReadJob; }
    ReadsLead(s, k);
    hide StepsTo, CommitCreate, BeginCreate, PlanOf, CreateReads;
    assert Leads(t, [], t) && Leads(s, [], s);
    LeadsFirst(held, Commit(k), t, [], t);
    LeadsFirst(held, Rollback(k), s, [], s);
    assert [Commit(k)] + [] == [Commit(k)] && [Rollback(k)] + [] == [Rollback(k)];
    LeadsOn(s, CreateReads(s.db, k), held, [Commit(k)], t);
    LeadsOn(s, CreateReads(s.db, k), held, [Rollback(k)], s);
  }

  lemma ReadsLead(s: State, k: Key)
    requires k !in s.creates && BeginCreate(s.db, k).Proceed?
    ensures Leads(s, CreateReads(s.db, k), s.(creates := s.creates[k := PlanOf(s.db, k)]))
  {
    var begun := BeginCreate(s.db, k).plan;
    var first := s.(creates := s.creates[k := begun]);
    var held := s.(creates := s.creates[k := PlanOf(s.db, k)]);
    assert StepsTo(s, Begin(k), first) by { hide BeginCreate, ReadJob; }
    assert Leads(held, [], held);
    if begun.Unread? {
      assert first.creates[k := ReadJob(s.db, k)] == s.creates[k := ReadJob(s.db, k)];
      assert StepsTo(first, Read(k), held) by { hide BeginCreate, ReadJob; }
      hide StepsTo, BeginCreate, ReadJob;
      LeadsFirst(first, Read(k), held, [], held);
      LeadsFirst(s, Begin(k), first, [Read(k)] + [], held);
      assert [Begin(k)] + ([Read(k)] + []) == [Begin(k), Read(k)];
    } else {
      hide StepsTo, BeginCreate;
      LeadsFirst(s, Begin(k), first, [], held);
      assert [Begin(k)] + [] == [Begin(k)];
    }
  }

  /** A create call for a new key: one charge, one pending job that can be delivered, and nothing else. */
  lemma NewQueryMeans(db: Db, k: Key)
    requires Consistent(db) && k !in db.queries
    ensures BeginCreate(db, k) == Proceed(Unread)
    ensures var after := CommitCreate(db, k, PlanOf(db, k));
            && after.queries == db.queries[k := Pending] && after.jobs == db.jobs + [Job(k, Pending)]
            && after.charges == db.charges[k := 1] && after.reports == db.reports
            && Deliverable(after, |db.jobs|)
            && forall j :: j in db.outbox ==> j in after.outbox && after.outbox[j] == db.outbox[j]
  {
    assert Latest(db.jobs, k) == None;
    hide Latest;
  }
}
