/**
 * When a report job of backend/app/main.py is not run: how often the worker of
 * backend/app/report_worker.py delivers a job, which pending jobs it can still deliver, and which jobs
 * stay pending or running over every later run.
 */
module ReportStalls {
  import opened Common
  import opened ReportJobs
  import opened ReportClaims

  // ---------------------------------------------------------------------------------------
  // Deliveries
  // ---------------------------------------------------------------------------------------

  function Attempts(db: Db, j: JobId): nat {
    if j in db.outbox then db.outbox[j].attempts else 0
  }

  /** The worker claims the job's message. */
  predicate Delivers(a: Step, j: JobId) {
    a.Deliver? && a.job == j
  }

  function Deliveries(steps: seq<Step>, j: JobId): nat {
    if steps == [] then 0 else (if Delivers(steps[0], j) then 1 else 0) + Deliveries(steps[1..], j)
  }

  /** A row that no later enqueue makes deliverable: completed, or out of attempts. */
  predicate Dead(db: Db, j: JobId) {
    j in db.outbox && (db.outbox[j].status == Delivered || db.outbox[j].attempts >= MAX_ATTEMPTS)
  }

  /** What a statement may do to an outbox row besides a claim */
  predicate PostMoves(before: map<JobId, Post>, after: map<JobId, Post>, j: JobId) {
    && (j in before ==> j in after && after[j].attempts == before[j].attempts)
    && (j !in before && j in after ==> after[j].attempts == 0)
    && (j in before && before[j].status == Delivered ==> after[j].status == Delivered)
  }

  lemma AdvancePosts(db: Db, p: Proc, report: ReportStatus, j: JobId)
    ensures PostMoves(db.outbox, Advance(db, p, report).0.outbox, j)
  {
  }

  /** The job a create call enqueues */
  function PlannedJob(db: Db, plan: Plan): JobId
    requires !plan.Unread?
  {
    if plan.RequeueJob? then plan.job else if plan.found.Some? then plan.found.value.job else |db.jobs|
  }

  lemma CommittedPost(db: Db, k: Key, plan: Plan)
    requires !plan.Unread?
    ensures var j := PlannedJob(db, plan);
            CommitCreate(db, k, plan).outbox == db.outbox[j := Enqueued(db.outbox, j, k)]
  {
    hide Enqueued, Charges, SetJob, SetQuery;
    SameOutbox(db, k);
    match plan
    case RequeueJob(j) => SameOutbox(SetJob(db, j, Pending), k);
    case Reuse(charge, found) =>
      var charged := if charge then Charge(db, k) else db;
      SameOutbox(if k in db.queries then charged else charged.(queries := charged.queries[k := Pending]), k);
  }

  lemma SameOutbox(db: Db, k: Key)
    ensures forall j: JobId, status :: SetJob(db, j, status).outbox == db.outbox
    ensures forall status :: SetQuery(db, k, status).outbox == db.outbox
  {
  }

  lemma CommitPosts(db: Db, k: Key, plan: Plan, j: JobId)
    requires !plan.Unread?
    ensures PostMoves(db.outbox, CommitCreate(db, k, plan).outbox, j)
  {
    CommittedPost(db, k, plan);
    hide CommitCreate;
  }

  lemma PostsMove(s: State, a: Step, j: JobId)
    requires Enabled(s, a)
    ensures !Delivers(a, j) ==> PostMoves(s.db.outbox, Do(s, a).db.outbox, j)
    ensures Delivers(a, j) ==> !Dead(s.db, j) && Attempts(Do(s, a).db, j) == Attempts(s.db, j) + 1
  {
    hide Advance, CommitCreate, BeginCreate, ReadJob, StartLegacy;
    match a
    case Run(p, report) => AdvancePosts(s.db, s.procs[p], report, j);
    case Commit(k) => CommitPosts(s.db, k, s.creates[k], j);
    case Deliver(p, i) =>
    case _ => assert Do(s, a).db == s.db;
  }

  /** The attempts of a row count its deliveries; no requeue resets them. */
  lemma {:induction false} DeliveriesAreCounted(s: State, steps: seq<Step>, t: State, j: JobId)
    requires Leads(s, steps, t)
    ensures Attempts(t.db, j) == Attempts(s.db, j) + Deliveries(steps, j)
    decreases |steps|
  {
    hide Do, Enabled;
    if steps == [] {
    } else {
      PostsMove(s, steps[0], j);
      DeliveriesAreCounted(Do(s, steps[0]), steps[1..], t, j);
    }
  }

  /** Over any run of any calls a job is run three times at most, however often it is requeued. */
  lemma AtMostThreeRuns(steps: seq<Step>, t: State, j: JobId)
    requires Leads(START, steps, t)
    ensures Deliveries(steps, j) <= MAX_ATTEMPTS
  {
    RunsKeep(START, steps, t);
    DeliveriesAreCounted(START, steps, t, j);
    assert Addressed(t.db);
  }

  /** A dead row stays dead. */
  lemma {:induction false} DeadStays(s: State, steps: seq<Step>, t: State, j: JobId)
    requires Leads(s, steps, t) && Dead(s.db, j)
    ensures Dead(t.db, j) && Deliveries(steps, j) == 0
    decreases |steps|
  {
    hide Do, Enabled;
    if steps == [] {
    } else {
      PostsMove(s, steps[0], j);
      DeadStays(Do(s, steps[0]), steps[1..], t, j);
    }
  }

  /** An enqueued job can be delivered exactly when its row was not completed and has attempts left. */
  lemma EnqueuedIsDeliverableIff(db: Db, j: JobId, k: Key)
    ensures Deliverable(Enqueue(db, j, k), j) <==> !Dead(db, j)
    ensures Dead(Enqueue(db, j, k), j) <==> Dead(db, j)
  {
  }

  // ---------------------------------------------------------------------------------------
  // Pending jobs
  // ---------------------------------------------------------------------------------------

  /** The row of a pending job has not been given up. */
  predicate PendingPost(db: Db, j: JobId) {
    j < |db.jobs| && db.jobs[j].status == Pending ==> j in db.outbox && db.outbox[j].status != GivenUp
  }

  lemma AdvanceKeepsPending(db: Db, p: Proc, report: ReportStatus, j: JobId)
    requires ValidProc(db, p) && PendingPost(db, j)
    ensures PendingPost(Advance(db, p, report).0, j)
  {
    hide Latest;
  }

  lemma CommitKeepsPending(db: Db, k: Key, plan: Plan, j: JobId)
    requires Consistent(db) && ValidPlan(db, k, plan) && !plan.Unread? && PendingPost(db, j)
    ensures PendingPost(CommitCreate(db, k, plan), j)
  {
    hide Consistent, Latest, SetJob, SetQuery, Charges;
    CommittedPost(db, k, plan);
    if j < |db.jobs| {
      CommitWrites(db, k, plan, j);
    } else {
      CommitAddsOne(db, k, plan);
    }
    hide CommitCreate;
  }

  lemma CommitAddsOne(db: Db, k: Key, plan: Plan)
    requires !plan.Unread?
    ensures |CommitCreate(db, k, plan).jobs| == |db.jobs| + (if plan.Reuse? && plan.found == None then 1 else 0)
  {
  }

  lemma StepKeepsPending(s: State, a: Step, j: JobId)
    requires Inv(s) && Enabled(s, a) && PendingPost(s.db, j)
    ensures PendingPost(Do(s, a).db, j)
  {
    hide Latest, Consistent, ValidProc, ValidPlan, Advance, CommitCreate, BeginCreate, ReadJob, StartLegacy;
    match a
    case Run(p, report) => AdvanceKeepsPending(s.db, s.procs[p], report, j);
    case Commit(k) => CommitKeepsPending(s.db, k, s.creates[k], j);
    case Deliver(p, i) =>
    case _ => assert Do(s, a).db == s.db;
  }

  lemma {:induction false} RunsKeepPending(s: State, steps: seq<Step>, t: State, j: JobId)
    requires Inv(s) && Leads(s, steps, t) && PendingPost(s.db, j)
    ensures PendingPost(t.db, j)
    decreases |steps|
  {
    hide Inv, Do, Enabled, PendingPost;
    if steps == [] {
    } else {
      StepKeeps(s, steps[0]);
      StepKeepsPending(s, steps[0], j);
      RunsKeepPending(Do(s, steps[0]), steps[1..], t, j);
    }
  }

  /** No pending job is lost but the dead ones: in every run a pending job can be delivered exactly when
      its row is not completed and has attempts left. */
  lemma PendingIsDeliverableIff(steps: seq<Step>, t: State, j: JobId)
    requires Leads(START, steps, t) && j < |t.db.jobs| && t.db.jobs[j].status == Pending
    ensures Deliverable(t.db, j) <==> !Dead(t.db, j)
  {
    RunsKeepPending(START, steps, t, j);
  }

  // ---------------------------------------------------------------------------------------
  // A pending or running job that is never run again
  // ---------------------------------------------------------------------------------------

  predicate IsLegacy(p: Proc) {
    p.InsertMissing? || p.Claim? || p.MarkQuery? || p.EnqueueClaimed?
  }

  /** The job waits or runs, no worker has it, and none can get it. */
  predicate GivenUpOn(s: State, k: Key, j: JobId) {
    && HasJob(s.db, j, k) && s.db.jobs[j].status in {Pending, Running} && Dead(s.db, j)
    && forall p :: p in s.procs && s.procs[p].query == k ==> IsLegacy(s.procs[p])
  }

  predicate SameReport(a: Db, b: Db, k: Key) {
    (k in a.reports <==> k in b.reports) && (k in a.reports ==> a.reports[k] == b.reports[k])
  }

  lemma AdvanceReport(db: Db, p: Proc, report: ReportStatus, k: Key)
    requires p.query != k || IsLegacy(p)
    ensures SameReport(db, Advance(db, p, report).0, k)
  {
  }

  lemma NextIsLegacy(db: Db, p: Proc, report: ReportStatus)
    ensures var next := Advance(db, p, report).1;
            next.Some? ==> next.value.query == p.query && (IsLegacy(p) ==> IsLegacy(next.value))
  {
  }

  lemma ReportStays(s: State, a: Step, k: Key)
    requires Enabled(s, a) && forall p :: p in s.procs && s.procs[p].query == k ==> IsLegacy(s.procs[p])
    ensures SameReport(s.db, Do(s, a).db, k)
  {
    hide Advance, BeginCreate, ReadJob, StartLegacy, IsLegacy;
    match a
    case Run(p, report) => AdvanceReport(s.db, s.procs[p], report, k);
    case _ => assert Do(s, a).db.reports == s.db.reports;
  }

  /** Where the processes of the next state come from */
  predicate ComesFrom(s: State, a: Step, p: nat, next: Proc) {
    || (p in s.procs && s.procs[p].query == next.query && (IsLegacy(s.procs[p]) ==> IsLegacy(next)))
    || (a == Legacy(p, next.query) && StartLegacy(s.db, next.query) == Some(next) && IsLegacy(next))
    || (a.Deliver? && a.proc == p && a.job in s.db.outbox && s.db.outbox[a.job].query == next.query)
  }

  lemma ProcsComeFrom(s: State, a: Step, p: nat)
    requires Enabled(s, a) && p in Do(s, a).procs
    ensures ComesFrom(s, a, p, Do(s, a).procs[p])
  {
    hide Advance, BeginCreate, ReadJob, CommitCreate, Take, IsLegacy;
    match a
    case Run(q, report) => NextIsLegacy(s.db, s.procs[q], report);
    case Legacy(q, k) => StartIsLegacy(s.db, k);
    case Raise(q, retryable) => RaisedIsNotLegacy(s.procs[q], retryable);
    case _ =>
  }

  lemma StartIsLegacy(db: Db, k: Key)
    ensures var p := StartLegacy(db, k); p.Some? ==> IsLegacy(p.value) && p.value.query == k
  {
  }

  lemma RaisedIsNotLegacy(p: Proc, retryable: bool)
    requires InRun(p)
    ensures !IsLegacy(p) && Raised(p, retryable).query == p.query
  {
  }

  lemma DeadIsNotDelivered(s: State, a: Step, j: JobId)
    requires Enabled(s, a) && Dead(s.db, j)
    ensures !Delivers(a, j)
  {
  }

  lemma StaysLegacy(s: State, a: Step, k: Key, j: JobId, p: nat)
    requires Inv(s) && Enabled(s, a) && GivenUpOn(s, k, j) && p in Do(s, a).procs && Do(s, a).procs[p].query == k
    ensures IsLegacy(Do(s, a).procs[p])
  {
    hide Inv, Do, Enabled, IsLegacy, StartLegacy, Deliverable, Dead;
    ProcsComeFrom(s, a, p);
    DeadIsNotDelivered(s, a, j);
    if a.Deliver? && a.job in s.db.outbox && s.db.outbox[a.job].query == k {
      DeliveredElsewhere(s, a, k, j);
    }
  }

  lemma OnlyLegacyStays(s: State, a: Step, k: Key, j: JobId)
    requires Inv(s) && Enabled(s, a) && GivenUpOn(s, k, j)
    ensures forall p :: p in Do(s, a).procs && Do(s, a).procs[p].query == k ==> IsLegacy(Do(s, a).procs[p])
  {
    hide Inv, Do, Enabled, IsLegacy, GivenUpOn;
    forall p | p in Do(s, a).procs && Do(s, a).procs[p].query == k ensures IsLegacy(Do(s, a).procs[p]) {
      StaysLegacy(s, a, k, j, p);
    }
  }

  /** A message for the key is the job's own. */
  lemma DeliveredElsewhere(s: State, a: Step, k: Key, j: JobId)
    requires Inv(s) && HasJob(s.db, j, k) && a.Deliver? && a.job in s.db.outbox && s.db.outbox[a.job].query == k
    ensures Delivers(a, j)
  {
    hide Latest, Statuses, Paid;
    OneJobPerKey(s.db, a.job, j, k);
  }

  lemma OneJobPerKey(db: Db, i: JobId, j: JobId, k: Key)
    requires Listed(db) && HasJob(db, i, k) && HasJob(db, j, k)
    ensures i == j
  {
    hide Latest;
    assert i == j || i < j || j < i;
  }

  /** Statements of legacy starts and of other jobs' runs write no end to a job's waiting and running. */
  lemma WritesPendingOrRunning(db: Db, p: Proc, k: Key, j: JobId, before: Status, after: Status)
    requires HasJob(db, j, k) && ValidProc(db, p) && (p.query == k ==> IsLegacy(p))
    requires Writes(db, p, j, before, after)
    ensures after == Running
  {
    hide Holds, Retries;
  }

  lemma RunStaysPendingOrRunning(s: State, p: nat, report: ReportStatus, k: Key, j: JobId)
    requires Inv(s) && p in s.procs && GivenUpOn(s, k, j)
    ensures var after := Advance(s.db, s.procs[p], report).0;
            j < |after.jobs| && after.jobs[j].status in {Pending, Running}
  {
    assert ValidProc(s.db, s.procs[p]) by { hide Consistent, ValidPlan, ValidProc, GivenUpOn; }
    hide Inv, Dead, Advance, Writes, ValidProc;
    AdvanceWrites(s.db, s.procs[p], report, j);
    var before, after := s.db.jobs[j].status, Advance(s.db, s.procs[p], report).0.jobs[j].status;
    if Writes(s.db, s.procs[p], j, before, after) {
      WritesPendingOrRunning(s.db, s.procs[p], k, j, before, after);
    }
  }

  lemma StillPendingOrRunning(s: State, a: Step, k: Key, j: JobId)
    requires Inv(s) && Enabled(s, a) && GivenUpOn(s, k, j)
    ensures j < |Do(s, a).db.jobs| && Do(s, a).db.jobs[j].status in {Pending, Running}
  {
    hide Inv, Dead, Advance, CommitCreate, BeginCreate, ReadJob, StartLegacy, IsLegacy, Deliverable;
    match a
    case Run(p, report) => RunStaysPendingOrRunning(s, p, report, k, j);
    case Commit(q) => CommitWrites(s.db, q, s.creates[q], j);
    case _ => assert Do(s, a).db.jobs == s.db.jobs;
  }

  lemma GivenUpStep(s: State, a: Step, k: Key, j: JobId)
    requires Inv(s) && Enabled(s, a) && GivenUpOn(s, k, j)
    ensures GivenUpOn(Do(s, a), k, j) && SameReport(s.db, Do(s, a).db, k)
  {
    OnlyLegacyStays(s, a, k, j);
    StillPendingOrRunning(s, a, k, j);
    hide Do, Inv, Enabled, IsLegacy, SameReport;
    ReportStays(s, a, k);
    KeepsItsQuery(s, a, k, j);
    PostsMove(s, a, j);
  }

  lemma PendingOrRunningWaits(db: Db, k: Key, j: JobId)
    requires Listed(db) && HasJob(db, j, k) && db.jobs[j].status in {Pending, Running}
    ensures k in db.reports && db.reports[k] != FullReport ==> BeginCreate(db, k) == ReplyWait(Some(j))
    ensures k !in db.reports ==> BeginCreate(db, k) == Proceed(Unread)
    ensures ReadJob(db, k) == Reuse(false, Some(Found(j, db.jobs[j].status)))
    ensures CommitCreate(db, k, ReadJob(db, k)) == Enqueue(db, j, k)
  {
    OnlyJobIsLatest(db, k, j);
    hide Listed, Latest, Enqueue;
  }

  lemma GivenUpAnswers(s: State, k: Key, j: JobId)
    requires Inv(s) && GivenUpOn(s, k, j)
    ensures k in s.db.reports && s.db.reports[k] != FullReport ==> BeginCreate(s.db, k) == ReplyWait(Some(j))
    ensures k !in s.db.reports ==>
              && BeginCreate(s.db, k) == Proceed(Unread)
              && CommitCreate(s.db, k, ReadJob(s.db, k)).jobs == s.db.jobs
              && !Deliverable(CommitCreate(s.db, k, ReadJob(s.db, k)), j)
  {
    assert Listed(s.db) by { hide Listed, Statuses, Paid, Addressed, ValidPlan, ValidProc, GivenUpOn; }
    hide Inv, Listed, Latest, Dead, Deliverable, BeginCreate, ReadJob, CommitCreate;
    PendingOrRunningWaits(s.db, k, j);
    EnqueuedIsDeliverableIff(s.db, j, k);
  }

  /** Such a job stays pending or running over every later run, and its key never gets a report: every
      create call waits, or enqueues a message that cannot be delivered. */
  lemma {:induction false} GivenUpWaitsForever(s: State, steps: seq<Step>, t: State, k: Key, j: JobId)
    requires Inv(s) && GivenUpOn(s, k, j) && Leads(s, steps, t)
    ensures GivenUpOn(t, k, j) && SameReport(s.db, t.db, k)
    ensures k in s.db.reports && s.db.reports[k] != FullReport ==> BeginCreate(t.db, k) == ReplyWait(Some(j))
    ensures k !in s.db.reports ==>
              && BeginCreate(t.db, k) == Proceed(Unread)
              && CommitCreate(t.db, k, ReadJob(t.db, k)).jobs == t.db.jobs
              && !Deliverable(CommitCreate(t.db, k, ReadJob(t.db, k)), j)
    decreases |steps|
  {
    hide Inv, GivenUpOn, Do, Enabled, BeginCreate, CommitCreate, ReadJob, Deliverable;
    if steps == [] {
      GivenUpAnswers(s, k, j);
    } else {
      StepKeeps(s, steps[0]);
      GivenUpStep(s, steps[0], k, j);
      GivenUpWaitsForever(Do(s, steps[0]), steps[1..], t, k, j);
    }
  }

  /** An undisturbed create call on a failed job with an insufficient report */
  lemma RequeueSteps(s: State, k: Key, j: JobId)
    requires Listed(s.db) && k !in s.creates && HasJob(s.db, j, k) && s.db.jobs[j].status == Failed
    requires k in s.db.reports && s.db.reports[k] == InsufficientData
    ensures var requeued := SetQuery(SetJob(s.db, j, Pending), k, Pending);
            var t := s.(db := Enqueue(requeued, j, k), creates := s.creates[k := RequeueJob(j)] - {k});
            Leads(s, [Begin(k), Commit(k)], t)
  {
    OnlyJobIsLatest(s.db, k, j);
    hide Listed, Latest, Enqueue, SetQuery;
    var s1 := s.(creates := s.creates[k := RequeueJob(j)]);
    assert StepsTo(s, Begin(k), s1);
    var requeued := SetQuery(SetJob(s.db, j, Pending), k, Pending);
    var t := s1.(db := Enqueue(requeued, j, k), creates := s1.creates - {k});
    assert StepsTo(s1, Commit(k), t);
    hide StepsTo, SetJob;
    assert Leads(t, [], t);
    LeadsFirst(s1, Commit(k), t, [], t);
    LeadsFirst(s, Begin(k), s1, [Commit(k)] + [], t);
    assert [Begin(k)] + ([Commit(k)] + []) == [Begin(k), Commit(k)];
  }

  /** A create call makes a failed job such a one when its row is dead: after three failed runs, say. */
  lemma RequeueOfDeadRowGivesUp(s: State, k: Key, j: JobId)
    requires Listed(s.db) && k !in s.creates && HasJob(s.db, j, k) && s.db.jobs[j].status == Failed && Dead(s.db, j)
    requires k in s.db.reports && s.db.reports[k] == InsufficientData
    requires forall p :: p in s.procs && s.procs[p].query == k ==> IsLegacy(s.procs[p])
    ensures exists t :: Leads(s, [Begin(k), Commit(k)], t) && GivenUpOn(t, k, j)
  {
    hide Listed, IsLegacy, Leads;
    RequeueSteps(s, k, j);
    var requeued := SetQuery(SetJob(s.db, j, Pending), k, Pending);
    EnqueuedIsDeliverableIff(requeued, j, k);
    var t := s.(db := Enqueue(requeued, j, k), creates := s.creates[k := RequeueJob(j)] - {k});
    assert GivenUpOn(t, k, j);
  }

  /** One query with one pending job that has been run `n` times without success or report. */
  function Cycle(k: Key, n: nat): State {
    State(Db(map[k := if n == 0 then Pending else Failed], [Job(k, Pending)], map[], map[k := 1],
             map[0 := Post(k, Waiting, n, None)]),
          map[], map[])
  }

  const FAILED_RUN := [Deliver(0, 0), Raise(0, false), Run(0, FullReport)]

  function CreateSteps(k: Key): seq<Step> {
    [Begin(k), Read(k), Commit(k)]
  }

  lemma {:induction false} LeadsOn(s: State, first: seq<Step>, t: State, second: seq<Step>, u: State)
    requires Leads(s, first, t) && Leads(t, second, u)
    ensures Leads(s, first + second, u)
    decreases |first|
  {
    hide Do, Enabled;
    if first == [] {
      assert first + second == second;
    } else {
      assert (first + second)[1..] == first[1..] + second;
      LeadsOn(Do(s, first[0]), first[1..], t, second, u);
    }
  }

  lemma FirstCreate(k: Key)
    ensures Leads(START, CreateSteps(k), Cycle(k, 0))
  {
    var s1 := State(EMPTY, map[k := Unread], map[]);
    var s2 := State(EMPTY, map[k := Reuse(true, None)], map[]);
    assert StepsTo(START, Begin(k), s1);
    assert StepsTo(s1, Read(k), s2);
    assert StepsTo(s2, Commit(k), Cycle(k, 0)) by {
      assert s2.creates - {k} == map[];
      assert [] + [Job(k, Pending)] == [Job(k, Pending)];
    }
    hide StepsTo;
    ThreeSteps(START, Begin(k), s1, Read(k), s2, Commit(k), Cycle(k, 0));
  }

  /** The same after the run has failed: the job is failed and its row given up. */
  function AfterFailure(k: Key, n: nat): State {
    State(Db(map[k := Failed], [Job(k, Failed)], map[], map[k := 1],
             map[0 := Post(k, GivenUp, n + 1, Some(n + 1))]),
          map[], map[])
  }

  lemma RunFails(k: Key, n: nat)
    requires n < MAX_ATTEMPTS
    ensures Leads(Cycle(k, n), FAILED_RUN, AfterFailure(k, n))
  {
    var s := Cycle(k, n);
    var taken := Take(s.db, 0);
    var s1 := State(taken, map[], map[0 := StartRun(k, 0, n + 1)]);
    var s2 := State(taken, map[], map[0 := RecordFailure(k, 0, n + 1, false)]);
    var t := AfterFailure(k, n);
    assert StepsTo(s, Deliver(0, 0), s1);
    assert StepsTo(s1, Raise(0, false), s2);
    assert taken.outbox == map[0 := Post(k, Taken, n + 1, Some(n + 1))];
    assert Record(taken, k, 0, n + 1, false) == t.db;
    assert s2.procs - {0} == map[];
    assert StepsTo(s2, Run(0, FullReport), t);
    hide StepsTo;
    ThreeSteps(s, Deliver(0, 0), s1, Raise(0, false), s2, Run(0, FullReport), t);
  }

  lemma CreateRequeues(k: Key, n: nat)
    ensures Leads(AfterFailure(k, n), CreateSteps(k), Cycle(k, n + 1))
  {
    var s, t := AfterFailure(k, n), Cycle(k, n + 1);
    var plan := Reuse(false, Some(Found(0, Failed)));
    var s1 := s.(creates := map[k := Unread]);
    var s2 := s.(creates := map[k := plan]);
    assert StepsTo(s, Begin(k), s1);
    assert StepsTo(s1, Read(k), s2);
    assert CommitCreate(s.db, k, plan).outbox == t.db.outbox;
    assert CommitCreate(s.db, k, plan) == t.db;
    assert s2.creates - {k} == map[];
    assert StepsTo(s2, Commit(k), t);
    hide StepsTo;
    ThreeSteps(s, Begin(k), s1, Read(k), s2, Commit(k), t);
  }

  /** It comes to that: after three failed runs, with a create call after each, the job is pending and is
      never run again. */
  lemma ThreeFailuresGiveUp(k: Key)
    ensures exists steps, t :: Leads(START, steps, t) && GivenUpOn(t, k, 0) && t.db.jobs[0].status == Pending
  {
    var round := FAILED_RUN + CreateSteps(k);
    forall n | 0 <= n < 3 ensures Leads(Cycle(k, n), round, Cycle(k, n + 1)) {
      RunFails(k, n);
      CreateRequeues(k, n);
      LeadsOn(Cycle(k, n), FAILED_RUN, AfterFailure(k, n), CreateSteps(k), Cycle(k, n + 1));
    }
    FirstCreate(k);
    assert GivenUpOn(Cycle(k, 3), k, 0) && Cycle(k, 3).db.jobs[0].status == Pending by { hide Leads; }
    hide Leads, Cycle, FAILED_RUN, CreateSteps, GivenUpOn;
    LeadsOn(START, CreateSteps(k), Cycle(k, 0), round, Cycle(k, 1));
    LeadsOn(START, CreateSteps(k) + round, Cycle(k, 1), round, Cycle(k, 2));
    LeadsOn(START, CreateSteps(k) + round + round, Cycle(k, 2), round, Cycle(k, 3));
  }

  // ---------------------------------------------------------------------------------------
  // A claimed job nobody runs
  // ---------------------------------------------------------------------------------------

  /** No call and no worker is at work on the key; so no worker owes its failure record either. */
  predicate Idle(s: State, k: Key) {
    k !in s.creates && forall p :: p in s.procs ==> s.procs[p].query != k
  }

  /** The job runs, nobody works on its key, and there is no full report. */
  predicate Stranded(s: State, k: Key, j: JobId) {
    && Idle(s, k) && HasJob(s.db, j, k) && IsRunning(s.db, j)
    && k in s.db.reports && s.db.reports[k] != FullReport
  }

  lemma MarksAndStops(s: State, k: Key, j: JobId, p: nat)
    requires p in s.procs && s.procs[p] == MarkQuery(k, j)
    ensures var s1 := s.(db := SetQuery(s.db, k, Running), procs := s.procs[p := EnqueueClaimed(k, j)]);
            && StepsTo(s, Run(p, FullReport), s1)
            && StepsTo(s1, Stop(p), s1.(procs := s1.procs - {p}))
  {
  }

  /** The claim of a legacy start is not undone when its enqueue raises. */
  lemma FailedEnqueueStrands(s: State, k: Key, j: JobId, p: nat)
    requires Listed(s.db) && Idle(s, k) && p !in s.procs
    requires HasJob(s.db, j, k) && s.db.jobs[j].status == Failed
    requires k in s.db.reports && s.db.reports[k] == InsufficientData
    ensures exists t ::
              && Leads(s, [Legacy(p, k), Run(p, FullReport), Run(p, FullReport), Stop(p)], t)
              && Stranded(t, k, j) && t.db.outbox == s.db.outbox
  {
    hide Latest, Listed, StepsTo, StartLegacy, Advance, Enabled, Do;
    var s1 := s.(procs := s.procs[p := Claim(k, j)]);
    var s2 := s.(db := SetJob(s.db, j, Running), procs := s.procs[p := MarkQuery(k, j)]);
    var s3 := s2.(db := SetQuery(s2.db, k, Running), procs := s2.procs[p := EnqueueClaimed(k, j)]);
    var t := s3.(procs := s3.procs - {p});
    StartClaims(s, k, j, p);
    MarksAndStops(s2, k, j, p);
    assert Stranded(t, k, j);
    FourSteps(s, Legacy(p, k), s1, Run(p, FullReport), s2, Run(p, FullReport), s3, Stop(p), t);
  }

  /** Work on another key leaves this key's job, report and outbox row alone. */
  predicate Untouched(a: Db, b: Db, k: Key, j: JobId) {
    && HasJob(b, j, k) && (IsRunning(a, j) ==> IsRunning(b, j)) && SameReport(a, b, k)
    && (j in a.outbox ==> j in b.outbox && b.outbox[j] == a.outbox[j])
  }

  lemma AdvanceUntouched(db: Db, p: Proc, report: ReportStatus, k: Key, j: JobId)
    requires ValidProc(db, p) && p.query != k && HasJob(db, j, k)
    ensures Untouched(db, Advance(db, p, report).0, k, j)
  {
    hide Latest;
    assert p.job != j;
  }

  lemma CommitUntouched(db: Db, q: Key, plan: Plan, k: Key, j: JobId)
    requires ValidPlan(db, q, plan) && !plan.Unread? && q != k && HasJob(db, j, k)
    ensures Untouched(db, CommitCreate(db, q, plan), k, j)
  {
    hide Latest;
    assert PlannedJob(db, plan) != j;
    CommittedPost(db, q, plan);
  }

  lemma StrandedAnswers(db: Db, k: Key, j: JobId)
    requires Listed(db) && HasJob(db, j, k) && IsRunning(db, j) && k in db.reports && db.reports[k] != FullReport
    ensures BeginCreate(db, k) == ReplyWait(Some(j)) && StartLegacy(db, k) == None
  {
    OnlyJobIsLatest(db, k, j);
    hide Latest, Listed;
  }

  lemma NoCreateTakesUp(s: State, a: Step, k: Key)
    requires Enabled(s, a) && k !in s.creates && !BeginCreate(s.db, k).Proceed?
    ensures k !in Do(s, a).creates
  {
    hide BeginCreate, StartLegacy, Advance, CommitCreate, ReadJob, Take, Raised, InRun;
  }

  lemma NoProcTakesUp(s: State, a: Step, k: Key, j: JobId, p: nat)
    requires Inv(s) && Stranded(s, k, j) && Enabled(s, a) && !Delivers(a, j) && StartLegacy(s.db, k) == None
    requires p in Do(s, a).procs
    ensures Do(s, a).procs[p].query != k
  {
    hide Inv, Do, Enabled, StartLegacy, IsLegacy, IsRunning;
    ProcsComeFrom(s, a, p);
    if a.Deliver? && a.job in s.db.outbox && s.db.outbox[a.job].query == k {
      DeliveredElsewhere(s, a, k, j);
    }
  }

  /** Nobody takes up a stranded job's key. */
  lemma StaysIdle(s: State, a: Step, k: Key, j: JobId)
    requires Inv(s) && Stranded(s, k, j) && Enabled(s, a) && !Delivers(a, j)
    ensures Idle(Do(s, a), k)
  {
    StrandedKeyAnswers(s, k, j);
    NoCreateTakesUp(s, a, k);
    hide Inv, Do, Enabled, BeginCreate, StartLegacy, Stranded;
    forall p | p in Do(s, a).procs ensures Do(s, a).procs[p].query != k {
      NoProcTakesUp(s, a, k, j, p);
    }
  }

  lemma StrandedKeyAnswers(s: State, k: Key, j: JobId)
    requires Inv(s) && Stranded(s, k, j)
    ensures BeginCreate(s.db, k) == ReplyWait(Some(j)) && StartLegacy(s.db, k) == None
    ensures j in s.db.outbox
  {
    assert Listed(s.db) && Addressed(s.db) by { hide Listed, Statuses, Paid, Addressed, ValidPlan, ValidProc; }
    hide Inv, Listed, BeginCreate, StartLegacy;
    StrandedAnswers(s.db, k, j);
  }

  lemma StrandedUntouched(s: State, a: Step, k: Key, j: JobId)
    requires Inv(s) && Stranded(s, k, j) && Enabled(s, a) && !Delivers(a, j)
    ensures Untouched(s.db, Do(s, a).db, k, j)
  {
    hide Consistent, Latest, BeginCreate, StartLegacy, ReadJob, Advance, CommitCreate, ValidProc, ValidPlan;
    match a
    case Run(p, report) => AdvanceUntouched(s.db, s.procs[p], report, k, j);
    case Commit(q) => CommitUntouched(s.db, q, s.creates[q], k, j);
    case Deliver(p, i) =>
    case _ => assert Do(s, a).db == s.db;
  }

  lemma StrandedStep(s: State, a: Step, k: Key, j: JobId)
    requires Inv(s) && Stranded(s, k, j) && Enabled(s, a) && !Delivers(a, j)
    ensures Stranded(Do(s, a), k, j)
    ensures j in s.db.outbox && j in Do(s, a).db.outbox && Do(s, a).db.outbox[j] == s.db.outbox[j]
  {
    StrandedKeyAnswers(s, k, j);
    hide Inv, Do, Enabled, Idle, BeginCreate, StartLegacy;
    StaysIdle(s, a, k, j);
    StrandedUntouched(s, a, k, j);
  }

  /** From then on, until a worker claims the job's message, every create call answers wait, every legacy
      start answers running, and the job's message stays as it is. */
  lemma {:induction false} StrandedJobStays(s: State, steps: seq<Step>, t: State, k: Key, j: JobId)
    requires Inv(s) && Stranded(s, k, j) && Leads(s, steps, t) && Deliveries(steps, j) == 0
    ensures Stranded(t, k, j)
    ensures j in s.db.outbox && j in t.db.outbox && t.db.outbox[j] == s.db.outbox[j]
    ensures BeginCreate(t.db, k) == ReplyWait(Some(j)) && StartLegacy(t.db, k) == None
    decreases |steps|
  {
    hide Stranded, Inv, Delivers, Do, Enabled, BeginCreate, StartLegacy;
    if steps == [] {
      StrandedKeyAnswers(s, k, j);
    } else {
      StepKeeps(s, steps[0]);
      StrandedStep(s, steps[0], k, j);
      StrandedJobStays(Do(s, steps[0]), steps[1..], t, k, j);
    }
  }

  lemma UndeliverableIsNotDelivered(s: State, a: Step, j: JobId)
    requires Enabled(s, a) && !Deliverable(s.db, j)
    ensures !Delivers(a, j)
  {
  }

  lemma SamePostSameDelivery(a: Db, b: Db, j: JobId)
    requires j in a.outbox && j in b.outbox && b.outbox[j] == a.outbox[j]
    ensures Deliverable(b, j) <==> Deliverable(a, j)
  {
  }

  /** If that message cannot be delivered, the job is stranded for good: over every later run whatsoever. */
  lemma {:induction false} StrandedForGood(s: State, steps: seq<Step>, t: State, k: Key, j: JobId)
    requires Inv(s) && Stranded(s, k, j) && Leads(s, steps, t) && !Deliverable(s.db, j)
    ensures Stranded(t, k, j) && !Deliverable(t.db, j)
    ensures BeginCreate(t.db, k) == ReplyWait(Some(j)) && StartLegacy(t.db, k) == None
    decreases |steps|
  {
    hide Stranded, Inv, Delivers, Do, Enabled, BeginCreate, StartLegacy, Deliverable;
    if steps == [] {
      StrandedKeyAnswers(s, k, j);
    } else {
      UndeliverableIsNotDelivered(s, steps[0], j);
      StepKeeps(s, steps[0]);
      StrandedStep(s, steps[0], k, j);
      SamePostSameDelivery(s.db, Do(s, steps[0]).db, j);
      StrandedForGood(Do(s, steps[0]), steps[1..], t, k, j);
    }
  }
}
