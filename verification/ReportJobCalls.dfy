/**
 * The calls of backend/app/main.py on the report tables and the worker's handling of one message
 * (backend/app/report_worker.py), each run from its first statement to its last, and what they leave for
 * the next create call.
 */
module ReportJobCalls {
  import opened Common
  import opened ReportJobs
  import opened ReportClaims
  import opened ReportStalls

  // ---------------------------------------------------------------------------------------
  // One generation run
  // ---------------------------------------------------------------------------------------

  /** How a run leaves its try block: by its end, or by an exception before its report is saved (while
      matching, resolving the source or saving), after it is saved (the quota), or after its query is
      marked completed, or after its job is (giving the connection back). */
  datatype Ending =
    | Finishes(report: ReportStatus)
    | RaisesUnsaved
    | RaisesSaved(report: ReportStatus)
    | RaisesMarked(report: ReportStatus)
    | RaisesCompleted(report: ReportStatus)

  predicate Produced(end: Ending) {
    end.RaisesUnsaved? || end.report in {FullReport, InsufficientData}
  }

  function After(db: Db, p: Proc, report: ReportStatus := InsufficientData): Db {
    Advance(db, p, report).0
  }

  /** The exception handler, statement by statement; claim and kind of failure play no part in it. */
  function Handled(db: Db, k: Key, j: JobId): Db {
    After(After(After(db, FailQuery(k, j, 0, false)), FailJob(k, j, 0, false)), FixReport(k, j, 0, false))
  }

  /** The tables after a run of job `j` of query `k` that nothing interrupts, statement by statement, up
      to what the worker does next */
  function Generated(db: Db, k: Key, j: JobId, end: Ending): Db {
    var started := After(db, StartRun(k, j, 0));
    if end.RaisesUnsaved? then Handled(started, k, j)
    else
      var saved := After(started, Save(k, j, 0), end.report);
      if end.RaisesSaved? then Handled(saved, k, j)
      else
        var marked := After(saved, CompleteQuery(k, j, 0));
        if end.RaisesMarked? then Handled(marked, k, j)
        else
          var completed := After(marked, CompleteJob(k, j, 0));
          if end.RaisesCompleted? then Handled(completed, k, j) else completed
  }

  /** One message from claim to settlement: `process_once`, undisturbed.  `retryable` is the worker's
      verdict on the exception. */
  function Processed(db: Db, j: JobId, end: Ending, retryable: bool): Db
    requires j in db.outbox
  {
    var k, claim := db.outbox[j].query, db.outbox[j].attempts + 1;
    var ran := Generated(Take(db, j), k, j, end);
    if end.Finishes? then CompleteClaim(ran, j, claim) else Record(ran, k, j, claim, retryable)
  }

  /** The plan a create call commits unless it answers at once. */
  function PlanOf(db: Db, k: Key): Plan
    requires BeginCreate(db, k).Proceed?
    ensures !PlanOf(db, k).Unread?
  {
    var plan := BeginCreate(db, k).plan;
    if plan.Unread? then ReadJob(db, k) else plan
  }

  /** Requeued: the job waits again and is enqueued again; the query is not charged a second time.  Only a
      query with a report is marked pending as well.  Its message can be delivered exactly when it was not
      completed and has attempts left. */
  ghost predicate Requeues(db: Db, k: Key, j: JobId) {
    && BeginCreate(db, k).Proceed?
    && var after := CommitCreate(db, k, PlanOf(db, k));
      && j < |after.jobs| && after.jobs[j].status == Pending && |after.jobs| == |db.jobs|
      && after.charges == db.charges && after.outbox == Enqueue(db, j, k).outbox
      && (Deliverable(after, j) <==> !Dead(db, j))
      && after.reports == db.reports
      && after.queries == (if k in db.reports then db.queries[k := Pending] else db.queries)
  }

  predicate ServesReport(db: Db, k: Key, j: JobId) {
    && k in db.reports && j < |db.jobs|
    && (db.reports[k] == FullReport || (db.reports[k] == InsufficientData && db.jobs[j].status == Completed))
  }

  /** A settled key: its latest job is completed or failed and its report, if any, is not being
      generated.  The next create call serves the report or requeues the job: it never waits. */
  lemma SettledKeyMovesOn(db: Db, k: Key, j: JobId)
    requires k in db.queries && Latest(db.jobs, k) == Some(j) && db.jobs[j].status in {Completed, Failed}
    ensures !BeginCreate(db, k).ReplyWait?
    ensures BeginCreate(db, k) == ReplyCached <==> ServesReport(db, k, j)
    ensures !ServesReport(db, k, j) ==> Requeues(db, k, j)
  {
    EnqueuedIsDeliverableIff(db, j, k);
    hide Latest, Dead, Enqueued;
  }

  /** The same rows, charges and messages, perhaps with other job and query statuses. */
  predicate SameRows(a: Db, b: Db) {
    && |a.jobs| == |b.jobs| && (forall i :: 0 <= i < |a.jobs| ==> a.jobs[i].query == b.jobs[i].query)
    && a.queries.Keys == b.queries.Keys && a.charges == b.charges && a.outbox == b.outbox
  }

  lemma HandledKeepsRows(db: Db, k: Key, j: JobId)
    requires j < |db.jobs|
    ensures var after := Handled(db, k, j);
            && SameRows(db, after) && after.jobs[j].status == Failed
            && (k in after.reports ==> after.reports[k] != Generating)
            && (k in db.queries ==> after.queries[k] == Failed)
  {
    hide Latest;
  }

  lemma GeneratedKeepsRows(db: Db, k: Key, j: JobId, end: Ending)
    requires j < |db.jobs| && Produced(end)
    ensures var after := Generated(db, k, j, end);
            && SameRows(db, after) && after.jobs[j].status == (if end.Finishes? then Completed else Failed)
            && (k in after.reports ==> after.reports[k] != Generating)
            && (end.Finishes? ==> k in after.reports && after.reports[k] == end.report)
            && (k in db.queries ==> after.queries[k] == (if end.Finishes? then Completed else Failed))
  {
    hide Latest, Handled;
    var started := SetJob(db, j, Running);
    assert SameRows(db, started);
    match end
    case Finishes(report) =>
    case RaisesUnsaved => HandledKeepsRows(started, k, j);
    case RaisesSaved(report) => HandledKeepsRows(PutReport(started, k, report), k, j);
    case RaisesMarked(report) => HandledKeepsRows(SetQuery(PutReport(started, k, report), k, Completed), k, j);
    case RaisesCompleted(report) =>
      HandledKeepsRows(SetJob(SetQuery(PutReport(started, k, report), k, Completed), j, Completed), k, j);
  }

  lemma LatestOfSameQueries(a: seq<Job>, b: seq<Job>, k: Key)
    requires |a| == |b| && forall i :: 0 <= i < |a| ==> a[i].query == b[i].query
    ensures Latest(a, k) == Latest(b, k)
  {
    hide Latest;
    var x, y := Latest(a, k), Latest(b, k);
    if x.Some? {
      assert b[x.value].query == k;
    }
    if y.Some? {
      assert a[y.value].query == k;
    }
  }

  /** However a generation run ends, from any tables, and before the worker records a failure: the job is
      completed or failed, no report of the query is still being generated, and the next create call for
      the key serves the saved report or requeues the job, without waiting and without a second charge. */
  lemma NextCreateAfterGeneration(db: Db, k: Key, j: JobId, end: Ending)
    requires k in db.queries && Latest(db.jobs, k) == Some(j) && Produced(end)
    ensures var after := Generated(db, k, j, end);
            && |after.jobs| == |db.jobs| && after.jobs[j].status == (if end.Finishes? then Completed else Failed)
            && k in after.queries && after.queries[k] == after.jobs[j].status
            && (k in after.reports ==> after.reports[k] != Generating)
            && after.charges == db.charges
            && (BeginCreate(after, k) == ReplyCached || Requeues(after, k, j))
            && (BeginCreate(after, k) == ReplyCached <==> ServesReport(after, k, j))
            && (end.Finishes? ==> BeginCreate(after, k) == ReplyCached && after.reports[k] == end.report)
  {
    var after := Generated(db, k, j, end);
    GeneratedKeepsRows(db, k, j, end);
    LatestOfSameQueries(db.jobs, after.jobs, k);
    SettledKeyMovesOn(after, k, j);
    hide Latest, Generated, BeginCreate, Requeues;
  }

  lemma RecordMeans(db: Db, k: Key, j: JobId, claim: nat, retryable: bool)
    requires j < |db.jobs| && k in db.queries && Holds(db, j, claim)
    ensures var after := Record(db, k, j, claim, retryable);
            var status := if Retries(claim, retryable) then Pending else Failed;
            && after.jobs == db.jobs[j := db.jobs[j].(status := status)] && after.queries == db.queries[k := status]
            && after.reports == db.reports && after.charges == db.charges
            && after.outbox == db.outbox[j := db.outbox[j].(status := if Retries(claim, retryable) then Retryable else GivenUp)]
  {
  }

  /** The next create call on a key whose latest job the worker has just recorded: it waits exactly when
      the failure is to be retried and the report is there but not full; then a message is due.  With a
      final failure it serves the report or requeues the job. */
  lemma RecordedKeyMovesOn(db: Db, k: Key, j: JobId, claim: nat, retryable: bool)
    requires k in db.queries && Latest(db.jobs, k) == Some(j) && Holds(db, j, claim)
    requires db.outbox[j].attempts == claim
    ensures var after := Record(db, k, j, claim, retryable);
            && after.charges == db.charges && after.reports == db.reports
            && after.jobs[j].status == (if Retries(claim, retryable) then Pending else Failed)
            && (BeginCreate(after, k).ReplyWait? <==>
                  Retries(claim, retryable) && k in db.reports && db.reports[k] != FullReport)
            && (BeginCreate(after, k) == ReplyCached <==> k in db.reports && db.reports[k] == FullReport)
            && (Retries(claim, retryable) ==> Deliverable(after, j))
            && (!Retries(claim, retryable) ==> BeginCreate(after, k) == ReplyCached || Requeues(after, k, j))
  {
    var after := Record(db, k, j, claim, retryable);
    RecordMeans(db, k, j, claim, retryable);
    LatestOfSameQueries(db.jobs, after.jobs, k);
    hide Latest, Record;
    if !Retries(claim, retryable) {
      SettledKeyMovesOn(after, k, j);
    }
    hide Requeues;
  }

  lemma CompletedKeyServes(db: Db, k: Key, j: JobId, claim: nat)
    requires k in db.queries && Latest(db.jobs, k) == Some(j) && db.jobs[j].status == Completed
    ensures var after := CompleteClaim(db, j, claim);
            && after.jobs == db.jobs && after.reports == db.reports && after.charges == db.charges
            && (Holds(db, j, claim) ==> j in after.outbox && after.outbox[j].status == Delivered)
            && !BeginCreate(after, k).ReplyWait?
            && (BeginCreate(after, k) == ReplyCached <==>
                  k in db.reports && db.reports[k] in {FullReport, InsufficientData})
            && (BeginCreate(after, k) == ReplyCached || Requeues(after, k, j))
  {
    hide Latest, Requeues, BeginCreate;
    SettledKeyMovesOn(CompleteClaim(db, j, claim), k, j);
  }

  /** The next create call after the worker has handled a message, from any tables and however its run
      ended.  It waits exactly when the failure is to be retried and the report saved is not a full one;
      otherwise it serves a report, requeues the job, or finds no report and enqueues the pending job.
      Nothing is charged, and a job it waits for can be delivered. */
  lemma NextCreateAfterWorker(db: Db, k: Key, j: JobId, end: Ending, retryable: bool)
    requires k in db.queries && Latest(db.jobs, k) == Some(j) && Produced(end)
    requires Deliverable(db, j) && db.outbox[j].query == k
    ensures var after := Processed(db, j, end, retryable);
            var again := !end.Finishes? && Retries(db.outbox[j].attempts + 1, retryable);
            && |after.jobs| == |db.jobs| && after.charges == db.charges
            && after.jobs[j].status == (if end.Finishes? then Completed else if again then Pending else Failed)
            && (BeginCreate(after, k).ReplyWait? <==> again && k in after.reports && after.reports[k] != FullReport)
            && (BeginCreate(after, k) == ReplyCached <==>
                  k in after.reports && (after.reports[k] == FullReport
                                         || (end.Finishes? && after.reports[k] == InsufficientData)))
            && (again ==> Deliverable(after, j))
            && (end.Finishes? ==> j in after.outbox && after.outbox[j].status == Delivered)
            && (!again ==> BeginCreate(after, k) == ReplyCached || Requeues(after, k, j))
  {
    hide Latest, BeginCreate, Requeues, Generated, Record, CompleteClaim, Retries;
    var taken, claim := Take(db, j), db.outbox[j].attempts + 1;
    var ran := Generated(taken, k, j, end);
    GeneratedKeepsRows(taken, k, j, end);
    LatestOfSameQueries(db.jobs, ran.jobs, k);
    if end.Finishes? {
      CompletedKeyServes(ran, k, j, claim);
    } else {
      RecordedKeyMovesOn(ran, k, j, claim, retryable);
      RecordWrites(ran, k, j, claim, retryable, j);
    }
  }

  /** The same among other calls: in any reachable state, right after the worker records a failed run whose
      claim it still holds. */
  lemma NextCreateAfterRecord(s: State, a: Step, j: JobId)
    requires Inv(s) && Enabled(s, a) && FailureRecorded(s, a, j)
    ensures var db, p := Do(s, a).db, s.procs[a.proc];
            var again := Retries(p.claim, p.retryable);
            && j < |db.jobs| && db.jobs[j].status == (if again then Pending else Failed)
            && (BeginCreate(db, p.query).ReplyWait? <==>
                  again && p.query in db.reports && db.reports[p.query] != FullReport)
            && (again ==> Deliverable(db, j))
            && (!again ==> BeginCreate(db, p.query) == ReplyCached || Requeues(db, p.query, j))
  {
    hide Inv, Do, Record, BeginCreate, Requeues, Retries, Listed, Latest, Enabled, Deliverable;
    var p := s.procs[a.proc];
    RecordIsOneUpdate(s, a, j);
    OnlyJobIsLatest(s.db, p.query, j);
    RecordedKeyMovesOn(s.db, p.query, j, p.claim, p.retryable);
    RecordWrites(s.db, p.query, j, p.claim, p.retryable, j);
  }

  lemma RecordIsOneUpdate(s: State, a: Step, j: JobId)
    requires Inv(s) && Enabled(s, a) && FailureRecorded(s, a, j)
    ensures var p := s.procs[a.proc];
            && HasJob(s.db, j, p.query) && Listed(s.db) && s.db.outbox[j].attempts == p.claim
            && Do(s, a).db == Record(s.db, p.query, j, p.claim, p.retryable)
  {
    hide Record, Latest, Listed, Statuses, Paid, ValidPlan;
    assert ValidProc(s.db, s.procs[a.proc]);
    assert SoundPost(s.db.outbox[j]);
  }

  lemma NextCreateAfterEnd(db: Db, k: Key, j: JobId, end: Status)
    requires Listed(db) && HasJob(db, j, k) && end in {Completed, Failed}
    ensures var after := SetJob(db, j, end);
            BeginCreate(after, k) == ReplyCached || Requeues(after, k, j)
  {
    var after := SetJob(db, j, end);
    SameJobsListed(db, after);
    OnlyJobIsLatest(after, k, j);
    hide Latest, Listed;
    SettledKeyMovesOn(after, k, j);
  }

  lemma EndIsOneUpdate(s: State, a: Step, j: JobId)
    requires Inv(s) && Enabled(s, a) && GenerationEnds(s, a, j)
    ensures HasJob(s.db, j, s.procs[a.proc].query)
    ensures Do(s, a).db == SetJob(s.db, j, if s.procs[a.proc].CompleteJob? then Completed else Failed)
  {
    hide Consistent, Latest;
    assert ValidProc(s.db, s.procs[a.proc]);
  }

  /** The same among other calls: right after any generation run writes its end, and before the worker
      records a failure, a create call for the key serves the report or requeues the job. */
  lemma NextCreateAmongOthers(s: State, a: Step, j: JobId)
    requires Inv(s) && Enabled(s, a) && GenerationEnds(s, a, j)
    ensures var db, k := Do(s, a).db, s.procs[a.proc].query;
            && j < |db.jobs| && db.jobs[j].status in {Completed, Failed}
            && (k in db.reports ==> db.reports[k] != Generating)
            && (BeginCreate(db, k) == ReplyCached || Requeues(db, k, j))
  {
    hide Latest, BeginCreate, Requeues, Do, Listed, Paid, Addressed;
    EndIsOneUpdate(s, a, j);
    var p := s.procs[a.proc];
    NextCreateAfterEnd(s.db, p.query, j, if p.CompleteJob? then Completed else Failed);
  }

  // ---------------------------------------------------------------------------------------
  // The calls
  // ---------------------------------------------------------------------------------------

  datatype Reply = Cached(report: ReportStatus) | Queued(job: Option<JobId>)

  datatype Refusal = QuotaExceeded | EnqueueFailed | NotFound | AlreadyHandled | GenerationFailed

  class Pipeline {
    var queries: map<Key, Status>
    var jobs: seq<Job>
    var reports: map<Key, ReportStatus>
    var charges: map<Key, nat>
    var outbox: map<JobId, Post>

    function Tables(): Db
      reads this
    {
      Db(queries, jobs, reports, charges, outbox)
    }

    constructor ()
      ensures Tables() == EMPTY
    {
      queries, jobs, reports, charges, outbox := map[], [], map[], map[], map[];
    }

    method UpdateJob(j: JobId, status: Status)
      modifies this
      ensures Tables() == SetJob(old(Tables()), j, status)
    {
      if j < |jobs| {
        jobs := jobs[j := jobs[j].(status := status)];
      }
    }

    method UpdateQuery(k: Key, status: Status)
      modifies this
      ensures Tables() == SetQuery(old(Tables()), k, status)
    {
      if k in queries {
        queries := queries[k := status];
      }
    }

    /** `save_report` */
    method SaveReport(k: Key, status: ReportStatus)
      modifies this
      ensures Tables() == PutReport(old(Tables()), k, status)
    {
      reports := reports[k := status];
    }

    /** Succeeds once, or raises and leaves the tables alone. */
    method ConsumeEntitlement(k: Key, raises: bool) returns (r: Result<(), Refusal>)
      modifies this
      ensures raises ==> r == Err(QuotaExceeded) && Tables() == old(Tables())
      ensures !raises ==> r.Ok? && Tables() == Charge(old(Tables()), k)
    {
      if raises {
        return Err(QuotaExceeded);
      }
      charges := charges[k := (if k in charges then charges[k] else 0) + 1];
      return Ok(());
    }

    /** `enqueue_report_outbox`: one row per job; it may raise and then leaves the tables alone. */
    method EnqueueReport(j: JobId, k: Key, raises: bool) returns (r: Result<(), Refusal>)
      modifies this
      ensures raises ==> r == Err(EnqueueFailed) && Tables() == old(Tables())
      ensures !raises ==> r.Ok? && Tables() == Enqueue(old(Tables()), j, k)
    {
      if raises {
        return Err(EnqueueFailed);
      }
      if j !in outbox {
        outbox := outbox[j := Post(k, Waiting, 0, None)];
      } else {
        var post := outbox[j];
        outbox := outbox[j := post.(status := if post.status == Delivered then Delivered else Waiting, token := None)];
      }
      return Ok(());
    }

    /** `create_or_get_query_job` under its key's lock.  An exception rolls everything back. */
    method CreateOrGetQueryJob(k: Key, entitlementRaises: bool, enqueueRaises: bool)
      returns (r: Result<Reply, Refusal>)
      modifies this
      ensures r.Err? ==> Tables() == old(Tables())
      ensures match BeginCreate(old(Tables()), k)
              case ReplyCached =>
                && k in old(Tables()).reports && r == Ok(Cached(old(Tables()).reports[k]))
                && Tables() == old(Tables())
              case ReplyWait(job) => r == Ok(Queued(job)) && Tables() == old(Tables())
              case Proceed(_) =>
                var plan := PlanOf(old(Tables()), k);
                if plan.Reuse? && plan.charge && entitlementRaises then r == Err(QuotaExceeded)
                else if enqueueRaises then r == Err(EnqueueFailed)
                else
                  && r == Ok(Queued(Some(PlannedJob(old(Tables()), plan))))
                  && Tables() == CommitCreate(old(Tables()), k, plan)
    {
      var before := (queries, jobs, charges);
      var latest := Latest(jobs, k);
      if k in queries && k in reports {
        match CachedReportAction(LatestStatus(Tables(), k), Some(reports[k])) {
          case UseCache =>
            return Ok(Cached(reports[k]));
          case Wait =>
            return Ok(Queued(latest));
          case Requeue =>
            if jobs[latest.value].status in {Failed, Completed, Succeeded} {
              UpdateJob(latest.value, Pending);
            }
            UpdateQuery(k, Pending);
            var enqueued := EnqueueReport(latest.value, k, enqueueRaises);
            if enqueued.Err? {
              queries, jobs, charges := before.0, before.1, before.2;
              return Err(enqueued.error);
            }
            return Ok(Queued(latest));
        }
      }
      if k !in queries {
        var charged := ConsumeEntitlement(k, entitlementRaises);
        if charged.Err? {
          return Err(charged.error);
        }
        queries := queries[k := Pending];
      }
      var job: JobId;
      if latest == None {
        job := |jobs|;
        jobs := jobs + [Job(k, Pending)];
      } else {
        job := latest.value;
        if jobs[job].status !in {Running, Pending} {
          UpdateJob(job, Pending);
        }
      }
      var enqueued := EnqueueReport(job, k, enqueueRaises);
      if enqueued.Err? {
        queries, jobs, charges := before.0, before.1, before.2;
        return Err(enqueued.error);
      }
      return Ok(Queued(Some(job)));
    }

    /** The exception handler of a generation run */
    method HandleFailure(j: JobId, k: Key)
      modifies this
      ensures Tables() == Handled(old(Tables()), k, j)
    {
      UpdateQuery(k, Failed);
      UpdateJob(j, Failed);
      hide SetJob, SetQuery;
      if k in reports && reports[k] == Generating {
        SaveReport(k, InsufficientData);
      }
    }

    /** `run_generation_job`, undisturbed.  `end` is how its try block is left. */
    method RunGenerationJob(j: JobId, k: Key, end: Ending) returns (r: Result<(), Refusal>)
      modifies this
      ensures Tables() == Generated(old(Tables()), k, j, end)
      ensures r.Err? <==> !end.Finishes?
    {
      hide SetJob, SetQuery, PutReport, Handled;
      UpdateJob(j, Running);
      if !end.RaisesUnsaved? {
        SaveReport(k, end.report);
        if !end.RaisesSaved? {
          UpdateQuery(k, Completed);
          if !end.RaisesMarked? {
            UpdateJob(j, Completed);
            if !end.RaisesCompleted? {
              return Ok(());
            }
          }
        }
      }
      HandleFailure(j, k);
      return Err(GenerationFailed);
    }

    /** `claim_sql` on the row of one job: nothing unless the row can be delivered. */
    method ClaimMessage(j: JobId) returns (claim: Option<Post>)
      modifies this
      ensures if Deliverable(old(Tables()), j)
              then Tables() == Take(old(Tables()), j) && claim == Some(outbox[j])
              else Tables() == old(Tables()) && claim == None
    {
      if j !in outbox || outbox[j].attempts >= MAX_ATTEMPTS || outbox[j].status !in {Waiting, Retryable, Taken} {
        return None;
      }
      var attempts := outbox[j].attempts + 1;
      outbox := outbox[j := outbox[j].(status := Taken, attempts := attempts, token := Some(attempts))];
      return Some(outbox[j]);
    }

    /** `complete_claim` */
    method SettleClaim(j: JobId, claim: nat)
      modifies this
      ensures Tables() == CompleteClaim(old(Tables()), j, claim)
    {
      if Holds(Tables(), j, claim) {
        outbox := outbox[j := outbox[j].(status := Delivered)];
      }
    }

    /** `record_failure`, one transaction */
    method RecordFailed(j: JobId, k: Key, claim: nat, retryable: bool)
      modifies this
      ensures Tables() == Record(old(Tables()), k, j, claim, retryable)
    {
      if Holds(Tables(), j, claim) {
        var again := retryable && claim < MAX_ATTEMPTS;
        outbox := outbox[j := outbox[j].(status := if again then Retryable else GivenUp)];
        UpdateJob(j, if again then Pending else Failed);
        UpdateQuery(k, if again then Pending else Failed);
      }
    }

    /** `process_once` on the row of one job, undisturbed */
    method ProcessOnce(j: JobId, end: Ending, retryable: bool) returns (claimed: bool)
      modifies this
      ensures claimed <==> Deliverable(old(Tables()), j)
      ensures Tables() == if claimed then Processed(old(Tables()), j, end, retryable) else old(Tables())
    {
      hide Generated, Record, CompleteClaim;
      var claim := ClaimMessage(j);
      if claim == None {
        return false;
      }
      var ran := RunGenerationJob(j, claim.value.query, end);
      if ran.Ok? {
        SettleClaim(j, claim.value.attempts);
      } else {
        RecordFailed(j, claim.value.query, claim.value.attempts, retryable);
      }
      return true;
    }

    /** `run_legacy_job`, undisturbed.  It is no transaction: when the enqueue raises, the claim stays. */
    method RunLegacyJob(k: Key, enqueueRaises: bool) returns (r: Result<(JobId, Status), Refusal>)
      modifies this
      ensures k !in old(queries) ==> r == Err(NotFound) && Tables() == old(Tables())
      ensures k in old(queries) ==> Tables() == LegacyStarted(old(Tables()), k, enqueueRaises)
      ensures k in old(queries) ==> r == LegacyReply(old(Tables()), k, enqueueRaises)
    {
      if k !in queries {
        return Err(NotFound);
      }
      var latest := Latest(jobs, k);
      var job: JobId;
      if latest == None {
        job := |jobs|;
        jobs := jobs + [Job(k, Pending)];
      } else {
        job := latest.value;
        if jobs[job].status in {Completed, Running} {
          return Ok((job, jobs[job].status));
        }
      }
      if jobs[job].status !in {Pending, Failed} {
        return Err(AlreadyHandled);
      }
      UpdateJob(job, Running);
      UpdateQuery(k, Running);
      var enqueued := EnqueueReport(job, k, enqueueRaises);
      if enqueued.Err? {
        return Err(enqueued.error);
      }
      return Ok((job, Running));
    }
  }

  /** The tables after a legacy start: the steps of its process, one after the other. */
  function LegacyStarted(db: Db, k: Key, enqueueRaises: bool): Db {
    match StartLegacy(db, k)
    case None => db
    case Some(p) =>
      var found := if p.InsertMissing? then Advance(db, p, FullReport) else (db, Some(p));
      var claimed := Advance(found.0, found.1.value, FullReport);
      if claimed.1 == None then claimed.0
      else
        var marked := Advance(claimed.0, claimed.1.value, FullReport);
        if enqueueRaises then marked.0 else Advance(marked.0, marked.1.value, FullReport).0
  }

  function LegacyReply(db: Db, k: Key, enqueueRaises: bool): Result<(JobId, Status), Refusal> {
    match Latest(db.jobs, k)
    case None => if enqueueRaises then Err(EnqueueFailed) else Ok((|db.jobs|, Running))
    case Some(j) =>
      var status := db.jobs[j].status;
      if status in {Completed, Running} then Ok((j, status))
      else if status !in {Pending, Failed} then Err(AlreadyHandled)
      else if enqueueRaises then Err(EnqueueFailed)
      else Ok((j, Running))
  }

  /** A legacy start takes a pending or failed job and nothing else: then job and query are running, and
      the message is there unless the enqueue raised. */
  lemma LegacyStartMeans(db: Db, k: Key, j: JobId, enqueueRaises: bool)
    requires k in db.queries && Latest(db.jobs, k) == Some(j)
    ensures var after := LegacyStarted(db, k, enqueueRaises);
            && (db.jobs[j].status !in {Pending, Failed} ==> after == db)
            && (db.jobs[j].status in {Pending, Failed} ==>
                  && |after.jobs| == |db.jobs| && after.jobs[j] == Job(k, Running) && after.queries[k] == Running
                  && (forall i :: 0 <= i < |db.jobs| && i != j ==> after.jobs[i] == db.jobs[i])
                  && (forall q :: q in db.queries && q != k ==> q in after.queries && after.queries[q] == db.queries[q])
                  && after.reports == db.reports && after.charges == db.charges
                  && after.outbox == (if enqueueRaises then db.outbox else Enqueue(db, j, k).outbox))
  {
    hide Latest;
  }
}
