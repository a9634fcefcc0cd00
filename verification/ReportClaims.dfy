/**
 * Who changes a job's status: claims of legacy starts and runs (backend/app/main.py) and the worker's
 * record of a failed run (backend/app/report_worker.py), over the state machine of `ReportJobs`.
 */
module ReportClaims {
  import opened Common
  import opened ReportJobs

  // ---------------------------------------------------------------------------------------
  // How a running job stops running
  // ---------------------------------------------------------------------------------------

  predicate IsRunning(db: Db, j: JobId) {
    j < |db.jobs| && db.jobs[j].status == Running
  }

  /** A create call that found no report and read another status before the job was started. */
  predicate StaleCommit(s: State, a: Step, j: JobId) {
    && a.Commit? && a.key in s.creates && s.creates[a.key].Reuse?
    && s.creates[a.key].found.Some? && s.creates[a.key].found.value.job == j
    && s.creates[a.key].found.value.status !in {Running, Pending}
  }

  predicate GenerationEnds(s: State, a: Step, j: JobId) {
    && a.Run? && a.proc in s.procs && (s.procs[a.proc].CompleteJob? || s.procs[a.proc].FailJob?)
    && s.procs[a.proc].job == j
  }

  /** The worker records a failed run whose claim it still holds. */
  predicate FailureRecorded(s: State, a: Step, j: JobId) {
    && a.Run? && a.proc in s.procs && s.procs[a.proc].RecordFailure?
    && s.procs[a.proc].job == j && Holds(s.db, j, s.procs[a.proc].claim)
  }

  /** The statements that write a job's status */
  predicate Writes(db: Db, p: Proc, j: JobId, before: Status, after: Status) {
    || (p.StartRun? && p.job == j && after == Running)
    || (p.Claim? && p.job == j && after == Running && before in {Pending, Failed})
    || (p.CompleteJob? && p.job == j && after == Completed)
    || (p.FailJob? && p.job == j && after == Failed)
    || (p.RecordFailure? && p.job == j && Holds(db, j, p.claim)
        && after == if Retries(p.claim, p.retryable) then Pending else Failed)
  }

  lemma RecordWrites(db: Db, k: Key, j: JobId, claim: nat, retryable: bool, i: JobId)
    requires i < |db.jobs|
    ensures var after := Record(db, k, j, claim, retryable);
            && |after.jobs| == |db.jobs|
            && after.jobs[i] == if i == j && Holds(db, j, claim)
                                then Job(db.jobs[i].query, if Retries(claim, retryable) then Pending else Failed)
                                else db.jobs[i]
  {
  }

  /** A statement writes a job's status exactly then. */
  lemma AdvanceWrites(db: Db, p: Proc, report: ReportStatus, j: JobId)
    requires j < |db.jobs|
    ensures var after := Advance(db, p, report).0;
            && j < |after.jobs| && after.jobs[j].query == db.jobs[j].query
            && (after.jobs[j].status == db.jobs[j].status
                || Writes(db, p, j, db.jobs[j].status, after.jobs[j].status))
            && (forall status :: Writes(db, p, j, db.jobs[j].status, status) ==> after.jobs[j].status == status)
  {
    hide Holds, Retries, Record;
    if p.RecordFailure? {
      RecordWrites(db, p.query, p.job, p.claim, p.retryable, j);
    }
  }

  lemma SetJobWrites(db: Db, q: JobId, status: Status, j: JobId)
    requires j < |db.jobs|
    ensures var after := SetJob(db, q, status);
            |after.jobs| == |db.jobs| && after.jobs[j] == if q == j then Job(db.jobs[j].query, status) else db.jobs[j]
  {
  }

  lemma CommitWrites(db: Db, k: Key, plan: Plan, j: JobId)
    requires j < |db.jobs| && !plan.Unread?
    ensures var after := CommitCreate(db, k, plan);
            && j < |after.jobs| && after.jobs[j].query == db.jobs[j].query
            && (after.jobs[j].status == db.jobs[j].status
                || (after.jobs[j].status == Pending &&
                    ((plan == RequeueJob(j) && db.jobs[j].status in {Failed, Completed, Succeeded})
                     || (plan.Reuse? && plan.found.Some? && plan.found.value.job == j
                         && plan.found.value.status !in {Running, Pending}))))
  {
    hide SetJob, Charges;
    match plan
    case RequeueJob(q) => SetJobWrites(db, q, Pending, j);
    case Reuse(charge, found) =>
      var charged := if charge then Charge(db, k) else db;
      var listed := if k in db.queries then charged else charged.(queries := charged.queries[k := Pending]);
      assert listed.jobs == db.jobs;
      if found.Some? {
        SetJobWrites(listed, found.value.job, Pending, j);
      }
  }

  /** Every way a job's status can change, over all reachable states: a claim takes a pending or failed
      job, a generation run starts and ends it, a create call requeues it, and the worker that records a
      failed run makes it pending or failed whatever it was. */
  lemma JobStatusDiagram(s: State, a: Step, j: JobId)
    requires Inv(s) && Enabled(s, a) && j < |s.db.jobs|
    ensures j < |Do(s, a).db.jobs| && Do(s, a).db.jobs[j].query == s.db.jobs[j].query
    ensures var before, after := s.db.jobs[j].status, Do(s, a).db.jobs[j].status;
            before == after || StatusMoves(s, a, j, before, after)
  {
    hide Latest, Listed, Paid, Addressed, Advance, CommitCreate, BeginCreate, ReadJob, StartLegacy, Writes;
    match a
    case Run(p, report) => AdvanceWrites(s.db, s.procs[p], report, j);
    case Commit(k) => CommitWrites(s.db, k, s.creates[k], j);
    case _ => assert Do(s, a).db.jobs == s.db.jobs;
  }

  predicate StatusMoves(s: State, a: Step, j: JobId, before: Status, after: Status) {
    || (a.Run? && a.proc in s.procs && Writes(s.db, s.procs[a.proc], j, before, after))
    || (after == Pending && StaleCommit(s, a, j))
    || (after == Pending && a.Commit? && a.key in s.creates && s.creates[a.key] == RequeueJob(j)
        && before in {Failed, Completed})
  }

  /** The steps that end a job's running */
  predicate Ends(s: State, a: Step, j: JobId) {
    GenerationEnds(s, a, j) || StaleCommit(s, a, j) || FailureRecorded(s, a, j)
  }

  lemma RunEnds(db: Db, p: Proc, report: ReportStatus, j: JobId)
    requires IsRunning(db, j)
    ensures !IsRunning(Advance(db, p, report).0, j) <==>
              || ((p.CompleteJob? || p.FailJob?) && p.job == j)
              || (p.RecordFailure? && p.job == j && Holds(db, j, p.claim))
  {
    AdvanceWrites(db, p, report, j);
    hide Advance, Holds;
    var again := p.RecordFailure? && Retries(p.claim, p.retryable);
    assert p.CompleteJob? && p.job == j ==> Writes(db, p, j, Running, Completed);
    assert p.FailJob? && p.job == j ==> Writes(db, p, j, Running, Failed);
    assert p.RecordFailure? && p.job == j && Holds(db, j, p.claim) ==>
        Writes(db, p, j, Running, if again then Pending else Failed);
  }

  lemma CommitEnds(db: Db, k: Key, plan: Plan, j: JobId)
    requires IsRunning(db, j) && !plan.Unread?
    ensures !IsRunning(CommitCreate(db, k, plan), j) <==>
              plan.Reuse? && plan.found.Some? && plan.found.value.job == j
              && plan.found.value.status !in {Running, Pending}
  {
    CommitWrites(db, k, plan, j);
  }

  /** A running job stops running exactly when a generation run on it writes its end, when the worker
      records a failed run of it whose claim it still holds, or when a create call resets it by a status
      read earlier: the two updates that do not check the present status. */
  lemma RunningEndsIff(s: State, a: Step, j: JobId)
    requires Inv(s) && Enabled(s, a) && IsRunning(s.db, j)
    ensures !IsRunning(Do(s, a).db, j) <==> Ends(s, a, j)
  {
    hide Inv, Advance, CommitCreate, BeginCreate, ReadJob, StartLegacy, Holds;
    match a
    case Run(p, report) => RunEnds(s.db, s.procs[p], report, j);
    case Commit(k) => CommitEnds(s.db, k, s.creates[k], j);
    case _ => assert Do(s, a).db.jobs == s.db.jobs;
  }

  /** None of the steps ends the job's running. */
  ghost predicate KeepsRunning(s: State, steps: seq<Step>, j: JobId)
    decreases |steps|
  {
    steps == [] ||
    (!Ends(s, steps[0], j) && Enabled(s, steps[0]) && KeepsRunning(Do(s, steps[0]), steps[1..], j))
  }

  /** Claims exclude each other: once a job is running, every later claim of it fails and every later
      legacy start answers at once, until one of the three steps above ends its running. */
  lemma {:induction false} ClaimsExcludeEachOther(s: State, steps: seq<Step>, t: State, k: Key, j: JobId)
    requires Inv(s) && IsRunning(s.db, j) && HasJob(s.db, j, k)
    requires Leads(s, steps, t) && KeepsRunning(s, steps, j)
    ensures IsRunning(t.db, j) && HasJob(t.db, j, k)
    ensures StartLegacy(t.db, k) == None && Advance(t.db, Claim(k, j), FullReport) == (t.db, None)
    decreases |steps|
  {
    hide Latest, Consistent, Do, Enabled, Ends;
    if steps == [] {
      RunningAnswers(s, k, j);
    } else {
      StepKeeps(s, steps[0]);
      RunningEndsIff(s, steps[0], j);
      KeepsItsQuery(s, steps[0], k, j);
      ClaimsExcludeEachOther(Do(s, steps[0]), steps[1..], t, k, j);
    }
  }

  lemma KeepsItsQuery(s: State, a: Step, k: Key, j: JobId)
    requires Inv(s) && Enabled(s, a) && HasJob(s.db, j, k)
    ensures HasJob(Do(s, a).db, j, k)
  {
    JobStatusDiagram(s, a, j);
    StepKeeps(s, a);
  }

  lemma RunningAnswers(s: State, k: Key, j: JobId)
    requires Inv(s) && IsRunning(s.db, j) && HasJob(s.db, j, k)
    ensures StartLegacy(s.db, k) == None && Advance(s.db, Claim(k, j), FullReport) == (s.db, None)
  {
    OnlyJobIsLatest(s.db, k, j);
  }

  /** A legacy start on a failed job that nothing interrupts reads it and claims it. */
  lemma StartClaims(s: State, k: Key, j: JobId, p: nat)
    requires Listed(s.db) && HasJob(s.db, j, k) && s.db.jobs[j].status == Failed && p !in s.procs
    ensures var s1 := s.(procs := s.procs[p := Claim(k, j)]);
            && StepsTo(s, Legacy(p, k), s1)
            && StepsTo(s1, Run(p, FullReport),
                       s.(db := SetJob(s.db, j, Running), procs := s.procs[p := MarkQuery(k, j)]))
  {
    OnlyJobIsLatest(s.db, k, j);
    hide Latest, Listed;
    var s1 := s.(procs := s.procs[p := Claim(k, j)]);
    assert s1.procs[p := MarkQuery(k, j)] == s.procs[p := MarkQuery(k, j)];
  }

  /** A create call that finds a failed job and no report */
  lemma CreateReadsFailed(s: State, k: Key, j: JobId)
    requires Listed(s.db) && HasJob(s.db, j, k) && s.db.jobs[j].status == Failed
    requires k !in s.creates && k !in s.db.reports
    ensures var s1 := s.(creates := s.creates[k := Unread]);
            && StepsTo(s, Begin(k), s1)
            && StepsTo(s1, Read(k), s.(creates := s.creates[k := Reuse(false, Some(Found(j, Failed)))]))
  {
    OnlyJobIsLatest(s.db, k, j);
    hide Latest, Listed;
    var s1 := s.(creates := s.creates[k := Unread]);
    var plan := Reuse(false, Some(Found(j, Failed)));
    assert s1.creates[k := plan] == s.creates[k := plan];
  }

  lemma StaleCommitResets(s: State, k: Key, j: JobId)
    requires k in s.creates && s.creates[k] == Reuse(false, Some(Found(j, Failed))) && HasJob(s.db, j, k)
    ensures var t := s.(db := Enqueue(SetJob(s.db, j, Pending), j, k), creates := s.creates - {k});
            StepsTo(s, Commit(k), t)
  {
  }

  lemma StartFindsPending(a: Db, b: Db, k: Key, j: JobId)
    requires Listed(a) && HasJob(a, j, k)
    requires b == Enqueue(SetJob(SetJob(a, j, Running), j, Pending), j, k)
    ensures StartLegacy(b, k) == Some(Claim(k, j))
    ensures Advance(b, Claim(k, j), FullReport).1 == Some(MarkQuery(k, j))
  {
    SameJobsListed(a, b);
    OnlyJobIsLatest(b, k, j);
    hide Latest, Listed, Enqueue;
  }

  /** Such a reset happens: a create call reads a failed job without a report, a legacy start claims
      the job, and the create call then sets it back to pending, so that a second start can claim it
      while the first still holds it. */
  lemma StaleCommitUndoesAClaim(s: State, k: Key, j: JobId, p: nat)
    requires Listed(s.db) && k !in s.creates && p !in s.procs
    requires HasJob(s.db, j, k) && s.db.jobs[j].status == Failed && k !in s.db.reports
    ensures exists t ::
              && Leads(s, [Begin(k), Read(k), Legacy(p, k), Run(p, FullReport), Commit(k)], t)
              && p in t.procs && t.procs[p] == MarkQuery(k, j)
              && HasJob(t.db, j, k) && t.db.jobs[j].status == Pending
              && StartLegacy(t.db, k) == Some(Claim(k, j))
              && Advance(t.db, Claim(k, j), FullReport).1 == Some(MarkQuery(k, j))
  {
    hide Latest, Listed, StepsTo, StartLegacy, Advance, Enabled, Do;
    var s1 := s.(creates := s.creates[k := Unread]);
    var s2 := s.(creates := s.creates[k := Reuse(false, Some(Found(j, Failed)))]);
    var s3 := s2.(procs := s2.procs[p := Claim(k, j)]);
    var s4 := s2.(db := SetJob(s.db, j, Running), procs := s2.procs[p := MarkQuery(k, j)]);
    CreateReadsFailed(s, k, j);
    StartClaims(s2, k, j, p);
    StaleCommitResets(s4, k, j);
    var t := s4.(db := Enqueue(SetJob(s4.db, j, Pending), j, k), creates := s4.creates - {k});
    StartFindsPending(s.db, t.db, k, j);
    FourSteps(s1, Read(k), s2, Legacy(p, k), s3, Run(p, FullReport), s4, Commit(k), t);
    LeadsFirst(s, Begin(k), s1, [Read(k), Legacy(p, k), Run(p, FullReport), Commit(k)], t);
    assert [Begin(k)] + [Read(k), Legacy(p, k), Run(p, FullReport), Commit(k)]
        == [Begin(k), Read(k), Legacy(p, k), Run(p, FullReport), Commit(k)];
  }

  lemma RecordOverwrites(s: State, p: nat, k: Key, j: JobId, claim: nat, retryable: bool)
    requires p in s.procs && s.procs[p] == RecordFailure(k, j, claim, retryable)
    ensures StepsTo(s, Run(p, FullReport),
                    s.(db := Record(s.db, k, j, claim, retryable), procs := s.procs - {p}))
  {
    hide Record;
  }

  /** The worker's record undoes a claim as well: its run failed, a legacy start claims the job before the
      failure is recorded, and the record, whose claim on the message still stands, overwrites it. */
  lemma RecordUndoesAClaim(s: State, k: Key, j: JobId, p: nat, q: nat, claim: nat, retryable: bool)
    requires Listed(s.db) && HasJob(s.db, j, k) && s.db.jobs[j].status == Failed && q !in s.procs
    requires p in s.procs && s.procs[p] == RecordFailure(k, j, claim, retryable) && Holds(s.db, j, claim)
    ensures exists t ::
              && Leads(s, [Legacy(q, k), Run(q, FullReport), Run(p, FullReport)], t)
              && q in t.procs && t.procs[q] == MarkQuery(k, j)
              && j < |t.db.jobs| && t.db.jobs[j].status == (if Retries(claim, retryable) then Pending else Failed)
  {
    hide Latest, Listed, StepsTo, StartLegacy, Advance, Enabled, Do, Record;
    var s1 := s.(procs := s.procs[q := Claim(k, j)]);
    var s2 := s.(db := SetJob(s.db, j, Running), procs := s.procs[q := MarkQuery(k, j)]);
    var t := s2.(db := Record(s2.db, k, j, claim, retryable), procs := s2.procs - {p});
    StartClaims(s, k, j, q);
    RecordOverwrites(s2, p, k, j, claim, retryable);
    RecordWrites(s2.db, k, j, claim, retryable, j);
    ThreeSteps(s, Legacy(q, k), s1, Run(q, FullReport), s2, Run(p, FullReport), t);
  }

  // ---------------------------------------------------------------------------------------
  // How a claim on a message is lost
  // ---------------------------------------------------------------------------------------

  /** An enqueue ends every claim on the message, a new claim ends the earlier ones, and a claim that is not
      held settles and records nothing. */
  lemma ClaimsEnd(db: Db, j: JobId, k: Key, claim: nat, retryable: bool)
    ensures !Holds(Enqueue(db, j, k), j, claim)
    ensures j in db.outbox ==> (Holds(Take(db, j), j, claim) <==> claim == db.outbox[j].attempts + 1)
    ensures !Holds(db, j, claim) ==> Record(db, k, j, claim, retryable) == db && CompleteClaim(db, j, claim) == db
  {
  }

  /** A statement other than a claim gives nobody a claim. */
  lemma AdvanceGivesNoClaim(db: Db, p: Proc, report: ReportStatus, j: JobId, claim: nat)
    ensures Holds(Advance(db, p, report).0, j, claim) ==> Holds(db, j, claim)
  {
  }

  /** The only row of the outbox a create call writes is the one it enqueues. */
  lemma CommitEnqueues(db: Db, k: Key, plan: Plan)
    requires !plan.Unread?
    ensures exists d: Db, i :: d.outbox == db.outbox && CommitCreate(db, k, plan) == Enqueue(d, i, k)
  {
    hide Enqueue;
    match plan
    case RequeueJob(j) =>
      var requeued := if j < |db.jobs| && db.jobs[j].status in {Failed, Completed, Succeeded}
                      then SetJob(db, j, Pending) else db;
      assert CommitCreate(db, k, plan) == Enqueue(SetQuery(requeued, k, Pending), j, k);
    case Reuse(charge, found) =>
      var charged := if charge then Charge(db, k) else db;
      var listed := if k in db.queries then charged else charged.(queries := charged.queries[k := Pending]);
      match found
      case None => assert CommitCreate(db, k, plan) == Enqueue(InsertJob(listed, k), |db.jobs|, k);
      case Some(Found(j, status)) =>
        assert CommitCreate(db, k, plan) ==
               Enqueue(if status in {Running, Pending} then listed else SetJob(listed, j, Pending), j, k);
  }

  lemma EnqueueGivesNoClaim(db: Db, i: JobId, k: Key, j: JobId, claim: nat)
    ensures Holds(Enqueue(db, i, k), j, claim) ==> Holds(db, j, claim)
    ensures j in db.outbox ==> j in Enqueue(db, i, k).outbox && Enqueue(db, i, k).outbox[j].attempts == db.outbox[j].attempts
  {
  }

  lemma CommitGivesNoClaim(db: Db, k: Key, plan: Plan, j: JobId, claim: nat)
    requires !plan.Unread?
    ensures Holds(CommitCreate(db, k, plan), j, claim) ==> Holds(db, j, claim)
    ensures j in db.outbox ==>
              var after := CommitCreate(db, k, plan).outbox;
              j in after && after[j].attempts == db.outbox[j].attempts
  {
    CommitEnqueues(db, k, plan);
    hide CommitCreate;
    var d: Db, i :| d.outbox == db.outbox && CommitCreate(db, k, plan) == Enqueue(d, i, k);
    EnqueueGivesNoClaim(d, i, k, j, claim);
    hide Enqueue;
  }

  lemma StepGivesNoOldClaim(s: State, a: Step, j: JobId, claim: nat)
    requires Enabled(s, a) && !Holds(s.db, j, claim) && j in s.db.outbox && claim <= s.db.outbox[j].attempts
    ensures !Holds(Do(s, a).db, j, claim)
    ensures j in Do(s, a).db.outbox && claim <= Do(s, a).db.outbox[j].attempts
  {
    hide Advance, CommitCreate, BeginCreate, ReadJob, StartLegacy;
    match a
    case Run(p, report) =>
      AdvanceGivesNoClaim(s.db, s.procs[p], report, j, claim);
      AdvanceKeepsAttempts(s.db, s.procs[p], report, j);
    case Commit(k) =>
      CommitGivesNoClaim(s.db, k, s.creates[k], j, claim);
    case Deliver(p, i) =>
    case _ => assert Do(s, a).db == s.db;
  }

  lemma AdvanceKeepsAttempts(db: Db, p: Proc, report: ReportStatus, j: JobId)
    requires j in db.outbox
    ensures j in Advance(db, p, report).0.outbox && Advance(db, p, report).0.outbox[j].attempts == db.outbox[j].attempts
  {
  }

  /** A claim once lost is never held again, over every later run: whatever its run still does, it neither
      settles the message nor records a failure. */
  lemma {:induction false} LostClaimStaysLost(s: State, steps: seq<Step>, t: State, j: JobId, claim: nat)
    requires Leads(s, steps, t) && !Holds(s.db, j, claim) && j in s.db.outbox && claim <= s.db.outbox[j].attempts
    ensures !Holds(t.db, j, claim)
    decreases |steps|
  {
    hide Do, Enabled, Holds;
    if steps == [] {
    } else {
      StepGivesNoOldClaim(s, steps[0], j, claim);
      LostClaimStaysLost(Do(s, steps[0]), steps[1..], t, j, claim);
    }
  }
}
