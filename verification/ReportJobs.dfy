/**
 * The report jobs of backend/app/main.py and the worker of backend/app/report_worker.py that runs them,
 * as a state machine over the query, job, report, charge and outbox tables.
 *
 * A create call is a transaction that holds its key's advisory lock: it begins by reading the report
 * and its job, may read the job once more, and takes effect at its commit.  Legacy starts, generation
 * runs and the worker around them are not transactions, so each of their statements is a step of its
 * own.  Any number of them may be under way on one job.  Time is not modelled: a message that is due
 * later, or whose lease may run out, can be claimed at any time.
 */
module ReportJobs {
  import opened Common

  type Key = string

  /** Jobs are numbered in the order they are created. */
  type JobId = nat

  datatype Status = Pending | Running | Failed | Completed | Succeeded | Unknown

  datatype ReportStatus = FullReport | InsufficientData | Generating | OtherReport

  datatype Job = Job(query: Key, status: Status)

  /** The outbox row of a job: pending, retryable, running, completed or failed. */
  datatype PostStatus = Waiting | Retryable | Taken | Delivered | GivenUp

  /** Each claim makes a fresh token; the number of the claim stands for it. */
  datatype Post = Post(query: Key, status: PostStatus, attempts: nat, token: Option<nat>)

  const MAX_ATTEMPTS := 3

  /** The tables.  A query row is named by its key; `charges` counts the successful calls of
      `consume_current_entitlement` for a key; the outbox has at most one row per job. */
  datatype Db = Db(
    queries: map<Key, Status>, jobs: seq<Job>, reports: map<Key, ReportStatus>, charges: map<Key, nat>,
    outbox: map<JobId, Post>)

  const EMPTY := Db(map[], [], map[], map[], map[])

  /** `order by created_at desc limit 1` */
  function Latest(jobs: seq<Job>, k: Key): (r: Option<JobId>)
    ensures r.Some? ==> r.value < |jobs| && jobs[r.value].query == k
    ensures r.Some? ==> forall i :: r.value < i < |jobs| ==> jobs[i].query != k
    ensures r == None ==> forall i :: 0 <= i < |jobs| ==> jobs[i].query != k
    decreases |jobs|
  {
    if jobs == [] then None
    else if jobs[|jobs| - 1].query == k then Some(|jobs| - 1)
    else Latest(jobs[..|jobs| - 1], k)
  }

  function LatestStatus(db: Db, k: Key): Option<Status> {
    var j := Latest(db.jobs, k);
    if j == None then None else Some(db.jobs[j.value].status)
  }

  // ---------------------------------------------------------------------------------------
  // One statement each
  // ---------------------------------------------------------------------------------------

  function SetJob(db: Db, j: JobId, status: Status): Db {
    if j < |db.jobs| then db.(jobs := db.jobs[j := db.jobs[j].(status := status)]) else db
  }

  function SetQuery(db: Db, k: Key, status: Status): Db {
    if k in db.queries then db.(queries := db.queries[k := status]) else db
  }

  function InsertJob(db: Db, k: Key): Db {
    db.(jobs := db.jobs + [Job(k, Pending)])
  }

  /** `save_report`: insert, or replace the report of the same query. */
  function PutReport(db: Db, k: Key, status: ReportStatus): Db {
    db.(reports := db.reports[k := status])
  }

  /** `enqueue_report_outbox`: a completed row stays completed, and the attempts are kept. */
  function Enqueued(outbox: map<JobId, Post>, j: JobId, k: Key): Post {
    if j !in outbox then Post(k, Waiting, 0, None)
    else if outbox[j].status == Delivered then outbox[j].(token := None)
    else outbox[j].(status := Waiting, token := None)
  }

  function Enqueue(db: Db, j: JobId, k: Key): Db {
    db.(outbox := db.outbox[j := Enqueued(db.outbox, j, k)])
  }

  /** The rows `claim_sql` may pick */
  predicate Deliverable(db: Db, j: JobId) {
    j in db.outbox && db.outbox[j].attempts < MAX_ATTEMPTS && db.outbox[j].status in {Waiting, Retryable, Taken}
  }

  /** `claim_sql` on one row */
  function Take(db: Db, j: JobId): Db
    requires j in db.outbox
  {
    var n := db.outbox[j].attempts + 1;
    db.(outbox := db.outbox[j := db.outbox[j].(status := Taken, attempts := n, token := Some(n))])
  }

  /** `status='running' and claim_token=$2` */
  predicate Holds(db: Db, j: JobId, claim: nat) {
    j in db.outbox && db.outbox[j].status == Taken && db.outbox[j].token == Some(claim)
  }

  function SetPost(db: Db, j: JobId, status: PostStatus): Db {
    if j in db.outbox then db.(outbox := db.outbox[j := db.outbox[j].(status := status)]) else db
  }

  /** `complete_claim` */
  function CompleteClaim(db: Db, j: JobId, claim: nat): Db {
    if Holds(db, j, claim) then SetPost(db, j, Delivered) else db
  }

  predicate Retries(claim: nat, retryable: bool) {
    retryable && claim < MAX_ATTEMPTS
  }

  /** `record_failure`: job and query are overwritten whatever their present status. */
  function Record(db: Db, k: Key, j: JobId, claim: nat, retryable: bool): Db {
    if !Holds(db, j, claim) then db
    else
      var again := Retries(claim, retryable);
      var status := if again then Pending else Failed;
      SetQuery(SetJob(SetPost(db, j, if again then Retryable else GivenUp), j, status), k, status)
  }

  function Charges(db: Db, k: Key): nat {
    if k in db.charges then db.charges[k] else 0
  }

  function Charge(db: Db, k: Key): Db {
    db.(charges := db.charges[k := Charges(db, k) + 1])
  }

  // ---------------------------------------------------------------------------------------
  // The create call
  // ---------------------------------------------------------------------------------------

  datatype Action = UseCache | Wait | Requeue

  /** `cached_report_action` */
  function CachedReportAction(job: Option<Status>, report: Option<ReportStatus>): (r: Action)
    ensures r == Requeue ==> job.Some?
  {
    if report == Some(FullReport) then UseCache
    else if report == Some(InsufficientData) && job in {Some(Completed), Some(Succeeded)} then UseCache
    else if job in {Some(Pending), Some(Running)} then Wait
    else if job == Some(Failed) then Requeue
    else if job in {Some(Completed), Some(Succeeded)} then Requeue
    else Wait
  }

  /** A job as the create call read it. */
  datatype Found = Found(job: JobId, status: Status)

  /** What a create call holding the lock has decided. */
  datatype Plan =
    | RequeueJob(job: JobId)
    | Unread                                       // no report; query and job not read yet
    | Reuse(charge: bool, found: Option<Found>)

  datatype Begun = ReplyCached | ReplyWait(job: Option<JobId>) | Proceed(plan: Plan)

  /** The first read under the lock, and the answers that need no write. */
  function BeginCreate(db: Db, k: Key): Begun {
    if k in db.queries && k in db.reports then
      match CachedReportAction(LatestStatus(db, k), Some(db.reports[k]))
      case UseCache => ReplyCached
      case Wait => ReplyWait(Latest(db.jobs, k))
      case Requeue => Proceed(RequeueJob(Latest(db.jobs, k).value))
    else
      Proceed(Unread)
  }

  /** The reads of a create call that found no report.  Only create calls insert queries, so the lock
      keeps the first of them valid up to the commit. */
  function ReadJob(db: Db, k: Key): Plan {
    var j := Latest(db.jobs, k);
    Reuse(k !in db.queries, if j == None then None else Some(Found(j.value, db.jobs[j.value].status)))
  }

  /** The writes of a create call.  A requeue checks the job's present status; the other branch goes by
      the status it read. */
  function CommitCreate(db: Db, k: Key, plan: Plan): Db
    requires !plan.Unread?
  {
    match plan
    case RequeueJob(j) =>
      var requeued := if j < |db.jobs| && db.jobs[j].status in {Failed, Completed, Succeeded}
                      then SetJob(db, j, Pending) else db;
      Enqueue(SetQuery(requeued, k, Pending), j, k)
    case Reuse(charge, found) =>
      var charged := if charge then Charge(db, k) else db;
      var listed := if k in db.queries then charged else charged.(queries := charged.queries[k := Pending]);
      match found
      case None => Enqueue(InsertJob(listed, k), |db.jobs|, k)
      case Some(Found(j, status)) =>
        Enqueue(if status in {Running, Pending} then listed else SetJob(listed, j, Pending), j, k)
  }

  // ---------------------------------------------------------------------------------------
  // Legacy starts and the worker's runs, each at its next statement
  // ---------------------------------------------------------------------------------------

  datatype Proc =
    | InsertMissing(query: Key)             // legacy: no job was found
    | Claim(query: Key, job: JobId)
    | MarkQuery(query: Key, job: JobId)
    | EnqueueClaimed(query: Key, job: JobId)
    | StartRun(query: Key, job: JobId, claim: nat)      // generation: the update before the try block
    | Save(query: Key, job: JobId, claim: nat)
    | CompleteQuery(query: Key, job: JobId, claim: nat)
    | CompleteJob(query: Key, job: JobId, claim: nat)
    | Settle(query: Key, job: JobId, claim: nat)        // end of the try block, then `complete_claim`
    | FailQuery(query: Key, job: JobId, claim: nat, retryable: bool)   // the exception handler
    | FailJob(query: Key, job: JobId, claim: nat, retryable: bool)
    | FixReport(query: Key, job: JobId, claim: nat, retryable: bool)
    | RecordFailure(query: Key, job: JobId, claim: nat, retryable: bool)  // the worker

  /** The legacy start after its first read: an answer at once for a completed or running job. */
  function StartLegacy(db: Db, k: Key): Option<Proc> {
    match Latest(db.jobs, k)
    case None => Some(InsertMissing(k))
    case Some(j) => if db.jobs[j].status in {Completed, Running} then None else Some(Claim(k, j))
  }

  /** One statement: the new tables and where the process is then.  `report` is what a generation run
      made of its query. */
  function Advance(db: Db, p: Proc, report: ReportStatus): (Db, Option<Proc>) {
    match p
    case InsertMissing(k) => (InsertJob(db, k), Some(Claim(k, |db.jobs|)))
    case Claim(k, j) =>
      if j < |db.jobs| && db.jobs[j].status in {Pending, Failed}
      then (SetJob(db, j, Running), Some(MarkQuery(k, j))) else (db, None)
    case MarkQuery(k, j) => (SetQuery(db, k, Running), Some(EnqueueClaimed(k, j)))
    case EnqueueClaimed(k, j) => (Enqueue(db, j, k), None)
    case StartRun(k, j, c) => (SetJob(db, j, Running), Some(Save(k, j, c)))
    case Save(k, j, c) => (PutReport(db, k, report), Some(CompleteQuery(k, j, c)))
    case CompleteQuery(k, j, c) => (SetQuery(db, k, Completed), Some(CompleteJob(k, j, c)))
    case CompleteJob(k, j, c) => (SetJob(db, j, Completed), Some(Settle(k, j, c)))
    case Settle(k, j, c) => (CompleteClaim(db, j, c), None)
    case FailQuery(k, j, c, again) => (SetQuery(db, k, Failed), Some(FailJob(k, j, c, again)))
    case FailJob(k, j, c, again) => (SetJob(db, j, Failed), Some(FixReport(k, j, c, again)))
    case FixReport(k, j, c, again) =>
      (if k in db.reports && db.reports[k] == Generating then PutReport(db, k, InsufficientData) else db,
       Some(RecordFailure(k, j, c, again)))
    case RecordFailure(k, j, c, again) => (Record(db, k, j, c, again), None)
  }

  /** Inside the try block of a generation run. */
  predicate Guarded(p: Proc) {
    p.Save? || p.CompleteQuery? || p.CompleteJob? || p.Settle?
  }

  /** In a generation run; the worker catches whatever leaves it. */
  predicate InRun(p: Proc) {
    p.StartRun? || Guarded(p) || p.FailQuery? || p.FailJob? || p.FixReport?
  }

  function Raised(p: Proc, retryable: bool): Proc
    requires InRun(p)
  {
    if Guarded(p) then FailQuery(p.query, p.job, p.claim, retryable)
    else RecordFailure(p.query, p.job, p.claim, retryable)
  }

  // ---------------------------------------------------------------------------------------
  // Runs
  // ---------------------------------------------------------------------------------------

  /** Tables, create calls holding their key's lock, and the other processes under way. */
  datatype State = State(db: Db, creates: map<Key, Plan>, procs: map<nat, Proc>)

  const START := State(EMPTY, map[], map[])

  datatype Step =
    | Begin(key: Key)
    | Read(key: Key)
    | Commit(key: Key)
    | Rollback(key: Key)                              // the entitlement or the enqueue raised
    | Legacy(proc: nat, key: Key)
    | Deliver(proc: nat, job: JobId)                  // the worker claims the job's message
    | Run(proc: nat, report: ReportStatus)
    | Raise(proc: nat, retryable: bool)               // inside a generation run
    | Stop(proc: nat)                                 // an exception elsewhere, or the process is lost

  predicate Enabled(s: State, a: Step) {
    match a
    case Begin(k) => k !in s.creates
    case Read(k) => k in s.creates && s.creates[k].Unread?
    case Commit(k) => k in s.creates && !s.creates[k].Unread?
    case Rollback(k) => k in s.creates
    case Legacy(p, k) => p !in s.procs && k in s.db.queries
    case Deliver(p, j) => p !in s.procs && Deliverable(s.db, j)
    case Run(p, report) => p in s.procs && report in {FullReport, InsufficientData}
    case Raise(p, _) => p in s.procs && InRun(s.procs[p])
    case Stop(p) => p in s.procs
  }

  function Moved(s: State, db: Db, p: nat, next: Option<Proc>): State {
    s.(db := db, procs := if next.Some? then s.procs[p := next.value] else s.procs - {p})
  }

  function Do(s: State, a: Step): State
    requires Enabled(s, a)
  {
    match a
    case Begin(k) =>
      var begun := BeginCreate(s.db, k);
      if begun.Proceed? then s.(creates := s.creates[k := begun.plan]) else s
    case Read(k) => s.(creates := s.creates[k := ReadJob(s.db, k)])
    case Commit(k) => s.(db := CommitCreate(s.db, k, s.creates[k]), creates := s.creates - {k})
    case Rollback(k) => s.(creates := s.creates - {k})
    case Legacy(p, k) => Moved(s, s.db, p, StartLegacy(s.db, k))
    case Deliver(p, j) =>
      Moved(s, Take(s.db, j), p, Some(StartRun(s.db.outbox[j].query, j, s.db.outbox[j].attempts + 1)))
    case Run(p, report) =>
      var after := Advance(s.db, s.procs[p], report);
      Moved(s, after.0, p, after.1)
    case Raise(p, retryable) => Moved(s, s.db, p, Some(Raised(s.procs[p], retryable)))
    case Stop(p) => Moved(s, s.db, p, None)
  }

  /** `steps` lead from `s` to `t`. */
  ghost predicate Leads(s: State, steps: seq<Step>, t: State)
    decreases |steps|
  {
    if steps == [] then s == t
    else Enabled(s, steps[0]) && Leads(Do(s, steps[0]), steps[1..], t)
  }

  // ---------------------------------------------------------------------------------------
  // What every run keeps
  // ---------------------------------------------------------------------------------------

  predicate HasJob(db: Db, j: JobId, k: Key) {
    j < |db.jobs| && db.jobs[j].query == k && k in db.queries
  }

  predicate HasSome(jobs: seq<Job>, k: Key) {
    exists i :: 0 <= i < |jobs| && jobs[i].query == k
  }

  predicate Listed(db: Db) {
    && (forall i :: 0 <= i < |db.jobs| ==> db.jobs[i].query in db.queries)
    && (forall k :: k in db.queries ==> HasSome(db.jobs, k))
    && (forall i, j :: 0 <= i < j < |db.jobs| ==> db.jobs[i].query != db.jobs[j].query)
  }

  predicate Statuses(db: Db) {
    && (forall i :: 0 <= i < |db.jobs| ==> db.jobs[i].status in {Pending, Running, Failed, Completed})
    && (forall i :: 0 <= i < |db.jobs| && db.jobs[i].status == Completed ==> db.jobs[i].query in db.reports)
    && (forall k :: k in db.reports ==> k in db.queries && db.reports[k] in {FullReport, InsufficientData})
  }

  predicate Paid(db: Db) {
    db.charges.Keys == db.queries.Keys && forall k :: k in db.charges ==> db.charges[k] == 1
  }

  /** Every job has its outbox row, for its own query, claimed three times at most. */
  predicate Addressed(db: Db) {
    && (forall j :: 0 <= j < |db.jobs| ==> j in db.outbox)
    && (forall j :: j in db.outbox ==> HasJob(db, j, db.outbox[j].query) && SoundPost(db.outbox[j]))
  }

  predicate SoundPost(p: Post) {
    p.attempts <= MAX_ATTEMPTS && (p.token.Some? ==> p.token.value == p.attempts)
  }

  predicate Consistent(db: Db) {
    Listed(db) && Statuses(db) && Paid(db) && Addressed(db)
  }

  predicate ValidPlan(db: Db, k: Key, plan: Plan) {
    match plan
    case RequeueJob(j) => HasJob(db, j, k)
    case Unread => true
    case Reuse(charge, found) =>
      && (charge <==> k !in db.queries) && (found == None <==> charge)
      && (found.Some? ==> HasJob(db, found.value.job, k))
  }

  predicate ValidProc(db: Db, p: Proc) {
    && !p.InsertMissing?
    && HasJob(db, p.job, p.query)
    && (p.CompleteQuery? || p.CompleteJob? || p.Settle? ==> p.query in db.reports)
  }

  predicate Inv(s: State) {
    && Consistent(s.db)
    && (forall k :: k in s.creates ==> ValidPlan(s.db, k, s.creates[k]))
    && (forall p :: p in s.procs ==> ValidProc(s.db, s.procs[p]))
  }

  /** `b` has the rows of `a`, perhaps with other statuses, and perhaps more. */
  predicate Grows(a: Db, b: Db) {
    && a.queries.Keys <= b.queries.Keys && a.reports.Keys <= b.reports.Keys
    && |a.jobs| <= |b.jobs|
    && forall i :: 0 <= i < |a.jobs| ==> a.jobs[i].query == b.jobs[i].query
  }

  lemma SameJobsListed(a: Db, b: Db)
    requires Listed(a) && a.queries.Keys == b.queries.Keys && |a.jobs| == |b.jobs|
    requires forall i :: 0 <= i < |a.jobs| ==> a.jobs[i].query == b.jobs[i].query
    ensures Listed(b)
  {
    hide Latest;
    forall k | k in b.queries ensures HasSome(b.jobs, k) {
      assert HasSome(a.jobs, k);
      var i :| 0 <= i < |a.jobs| && a.jobs[i].query == k;
      assert b.jobs[i].query == k;
    }
    forall i, j | 0 <= i < j < |b.jobs| ensures b.jobs[i].query != b.jobs[j].query {
      assert a.jobs[i].query != a.jobs[j].query;
    }
  }

  lemma SetJobKeeps(db: Db, j: JobId, status: Status)
    requires Consistent(db) && j < |db.jobs| && status in {Pending, Running, Failed, Completed}
    requires status == Completed ==> db.jobs[j].query in db.reports
    ensures Consistent(SetJob(db, j, status)) && Grows(db, SetJob(db, j, status))
    ensures SetJob(db, j, status).queries.Keys == db.queries.Keys
  {
    hide Latest, Listed;
    SameJobsListed(db, SetJob(db, j, status));
  }

  lemma SetQueryKeeps(db: Db, k: Key, status: Status)
    requires Consistent(db)
    ensures Consistent(SetQuery(db, k, status)) && Grows(db, SetQuery(db, k, status))
    ensures SetQuery(db, k, status).queries.Keys == db.queries.Keys
  {
    hide Latest, Listed;
    var after := SetQuery(db, k, status);
    assert Statuses(after) by { hide Paid, Addressed; }
    assert Paid(after) by { hide Statuses, Addressed; }
    assert Addressed(after) by { hide Statuses, Paid, SoundPost; }
    hide Statuses, Paid, Addressed;
    SameJobsListed(db, after);
  }

  lemma PutReportKeeps(db: Db, k: Key, status: ReportStatus)
    requires Consistent(db) && k in db.queries && status in {FullReport, InsufficientData}
    ensures Consistent(PutReport(db, k, status)) && Grows(db, PutReport(db, k, status))
    ensures PutReport(db, k, status).queries.Keys == db.queries.Keys
  {
    hide Latest, Listed;
    var after := PutReport(db, k, status);
    assert Statuses(after) by { hide Paid, Addressed; }
    assert Paid(after) by { hide Statuses, Addressed; }
    assert Addressed(after) by { hide Statuses, Paid, SoundPost; }
    hide Statuses, Paid, Addressed;
    SameJobsListed(db, after);
  }

  lemma PostKeeps(db: Db, j: JobId, post: Post)
    requires Consistent(db) && HasJob(db, j, post.query) && SoundPost(post)
    ensures var after := db.(outbox := db.outbox[j := post]);
            Consistent(after) && Grows(db, after) && after.queries.Keys == db.queries.Keys
  {
    hide Latest, Listed;
    var after := db.(outbox := db.outbox[j := post]);
    assert Statuses(after) by { hide Paid, Addressed; }
    assert Paid(after) by { hide Statuses, Addressed; }
    assert Addressed(after) by { hide Statuses, Paid; }
    hide Statuses, Paid, Addressed;
    SameJobsListed(db, after);
  }

  lemma EnqueueKeeps(db: Db, j: JobId, k: Key)
    requires Consistent(db) && HasJob(db, j, k)
    ensures Consistent(Enqueue(db, j, k)) && Grows(db, Enqueue(db, j, k))
    ensures Enqueue(db, j, k).queries.Keys == db.queries.Keys
  {
    hide Latest, Listed, Statuses, Paid;
    PostKeeps(db, j, Enqueued(db.outbox, j, k));
  }

  lemma TakeKeeps(db: Db, j: JobId)
    requires Consistent(db) && Deliverable(db, j)
    ensures Consistent(Take(db, j)) && Grows(db, Take(db, j))
    ensures Take(db, j).queries.Keys == db.queries.Keys
  {
    hide Latest, Listed, Statuses, Paid;
    PostKeeps(db, j, Take(db, j).outbox[j]);
  }

  lemma SetPostKeeps(db: Db, j: JobId, status: PostStatus)
    requires Consistent(db)
    ensures Consistent(SetPost(db, j, status)) && Grows(db, SetPost(db, j, status))
    ensures SetPost(db, j, status).queries.Keys == db.queries.Keys
  {
    hide Latest, Listed, Statuses, Paid;
    if j in db.outbox {
      PostKeeps(db, j, db.outbox[j].(status := status));
    }
  }

  lemma RecordKeeps(db: Db, k: Key, j: JobId, claim: nat, retryable: bool)
    requires Consistent(db) && HasJob(db, j, k)
    ensures var after := Record(db, k, j, claim, retryable);
            Consistent(after) && Grows(db, after) && after.queries.Keys == db.queries.Keys
  {
    if Holds(db, j, claim) {
      var again := Retries(claim, retryable);
      OverwriteKeeps(db, k, j, if again then Retryable else GivenUp, if again then Pending else Failed);
    }
  }

  lemma OverwriteKeeps(db: Db, k: Key, j: JobId, post: PostStatus, status: Status)
    requires Consistent(db) && HasJob(db, j, k) && status in {Pending, Failed}
    ensures var after := SetQuery(SetJob(SetPost(db, j, post), j, status), k, status);
            Consistent(after) && Grows(db, after) && after.queries.Keys == db.queries.Keys
  {
    var posted := SetPost(db, j, post);
    SetPostKeeps(db, j, post);
    assert posted.jobs == db.jobs;
    hide Consistent, SetPost, SetQuery;
    var done := SetJob(posted, j, status);
    SetJobKeeps(posted, j, status);
    hide SetJob;
    SetQueryKeeps(done, k, status);
  }

  lemma NewQueryListed(db: Db, k: Key, after: Db)
    requires Listed(db) && k !in db.queries
    requires after.jobs == db.jobs + [Job(k, Pending)] && after.queries == db.queries[k := Pending]
    ensures Listed(after)
  {
    hide Latest;
    forall q | q in after.queries ensures HasSome(after.jobs, q) {
      if q == k {
        assert after.jobs[|db.jobs|].query == k;
      } else {
        assert HasSome(db.jobs, q);
        var i :| 0 <= i < |db.jobs| && db.jobs[i].query == q;
        assert after.jobs[i].query == q;
      }
    }
    forall i, j | 0 <= i < j < |after.jobs| ensures after.jobs[i].query != after.jobs[j].query {
      assert db.jobs[i].query in db.queries;
    }
  }

  /** A new query gets its charge and its job in the same commit. */
  lemma NewQueryKeeps(db: Db, k: Key)
    requires Consistent(db) && k !in db.queries
    ensures var after := CommitCreate(db, k, Reuse(true, None));
            Consistent(after) && Grows(db, after) && after.queries.Keys == db.queries.Keys + {k}
  {
    hide Latest, Listed;
    var after := CommitCreate(db, k, Reuse(true, None));
    NewQueryListed(db, k, after);
    assert Statuses(after);
    assert k !in db.charges;
    assert Paid(after);
    assert after.jobs[|db.jobs|].query == k;
    assert Addressed(after);
  }

  lemma CommitKeeps(db: Db, k: Key, plan: Plan)
    requires Consistent(db) && ValidPlan(db, k, plan) && !plan.Unread?
    ensures var after := CommitCreate(db, k, plan);
            && Consistent(after) && Grows(db, after) && after.queries.Keys == db.queries.Keys + {k}
  {
    hide Latest, Consistent, SetJob, SetQuery, Enqueue;
    match plan
    case RequeueJob(j) =>
      var requeued := if db.jobs[j].status in {Failed, Completed, Succeeded} then SetJob(db, j, Pending) else db;
      SetJobKeeps(db, j, Pending);
      SetQueryKeeps(requeued, k, Pending);
      EnqueueKeeps(SetQuery(requeued, k, Pending), j, k);
    case Reuse(charge, found) =>
      if found == None {
        NewQueryKeeps(db, k);
      } else {
        var j := found.value.job;
        SetJobKeeps(db, j, Pending);
        EnqueueKeeps(db, j, k);
        EnqueueKeeps(SetJob(db, j, Pending), j, k);
        assert db.queries.Keys + {k} == db.queries.Keys;
      }
  }

  /** A plan or a process stays valid while others only add rows, as long as its own key is not
      listed behind its back. */
  lemma PlanStaysValid(a: Db, b: Db, k: Key, plan: Plan)
    requires ValidPlan(a, k, plan) && Grows(a, b) && (k in b.queries ==> k in a.queries)
    ensures ValidPlan(b, k, plan)
  {
  }

  lemma ProcStaysValid(a: Db, b: Db, p: Proc)
    requires ValidProc(a, p) && Grows(a, b)
    ensures ValidProc(b, p)
  {
  }

  /** A process goes on with the same job; what it still has to do is valid in the grown tables. */
  lemma NextIsValid(db: Db, p: Proc, report: ReportStatus, after: Db, next: Proc)
    requires ValidProc(db, p) && Advance(db, p, report) == (after, Some(next)) && Grows(db, after)
    ensures ValidProc(after, next) && next.query == p.query
  {
    hide SetJob, SetQuery, Enqueue, Record, CompleteClaim;
  }

  lemma AdvanceKeepsTables(db: Db, p: Proc, report: ReportStatus)
    requires Consistent(db) && ValidProc(db, p) && report in {FullReport, InsufficientData}
    ensures var (after, next) := Advance(db, p, report);
            Consistent(after) && Grows(db, after) && after.queries.Keys == db.queries.Keys
  {
    hide Consistent, SetJob, SetQuery, Enqueue, Record, SetPost;
    match p
    case Claim(k, j) => SetJobKeeps(db, j, Running);
    case MarkQuery(k, j) => SetQueryKeeps(db, k, Running);
    case EnqueueClaimed(k, j) => EnqueueKeeps(db, j, k);
    case StartRun(k, j, c) => SetJobKeeps(db, j, Running);
    case Save(k, j, c) => PutReportKeeps(db, k, report);
    case CompleteQuery(k, j, c) => SetQueryKeeps(db, k, Completed);
    case CompleteJob(k, j, c) => SetJobKeeps(db, j, Completed);
    case Settle(k, j, c) => SetPostKeeps(db, j, Delivered);
    case FailQuery(k, j, c, again) => SetQueryKeeps(db, k, Failed);
    case FailJob(k, j, c, again) => SetJobKeeps(db, j, Failed);
    case FixReport(k, j, c, again) => PutReportKeeps(db, k, InsufficientData);
    case RecordFailure(k, j, c, again) => RecordKeeps(db, k, j, c, again);
  }

  lemma AdvanceKeeps(db: Db, p: Proc, report: ReportStatus)
    requires Consistent(db) && ValidProc(db, p) && report in {FullReport, InsufficientData}
    ensures var (after, next) := Advance(db, p, report);
            && Consistent(after) && Grows(db, after) && after.queries.Keys == db.queries.Keys
            && (next.Some? ==> ValidProc(after, next.value) && next.value.query == p.query)
  {
    hide Consistent, Advance, ValidProc, Grows;
    AdvanceKeepsTables(db, p, report);
    var (after, next) := Advance(db, p, report);
    if next.Some? {
      NextIsValid(db, p, report, after, next.value);
    }
  }

  lemma OthersStayValid(s: State, t: State, p: nat)
    requires forall q :: q in s.creates ==> ValidPlan(s.db, q, s.creates[q])
    requires forall q :: q in s.procs ==> ValidProc(s.db, s.procs[q])
    requires Grows(s.db, t.db) && t.db.queries.Keys == s.db.queries.Keys && t.creates == s.creates
    requires forall q :: q in t.procs && q != p ==> q in s.procs && t.procs[q] == s.procs[q]
    ensures forall q :: q in t.creates ==> ValidPlan(t.db, q, t.creates[q])
    ensures forall q :: q in t.procs && q != p ==> ValidProc(t.db, t.procs[q])
  {
    hide ValidPlan, ValidProc, Grows;
    forall q | q in t.creates ensures ValidPlan(t.db, q, t.creates[q]) {
      PlanStaysValid(s.db, t.db, q, s.creates[q]);
    }
    forall q | q in t.procs && q != p ensures ValidProc(t.db, t.procs[q]) {
      ProcStaysValid(s.db, t.db, s.procs[q]);
    }
  }

  /** Every step of every call keeps the tables consistent, whatever else is under way. */
  lemma StepKeeps(s: State, a: Step)
    requires Inv(s) && Enabled(s, a)
    ensures Inv(Do(s, a))
  {
    hide Consistent, ValidPlan, ValidProc, CommitCreate, Advance, BeginCreate, ReadJob, StartLegacy, Grows, Take,
      Deliverable, Raised;
    var t := Do(s, a);
    match a
    case Begin(k) => BeginIsValid(s.db, k);
    case Read(k) => ReadIsValid(s.db, k);
    case Commit(k) =>
      CommitKeeps(s.db, k, s.creates[k]);
      forall q | q in t.creates ensures ValidPlan(t.db, q, t.creates[q]) {
        PlanStaysValid(s.db, t.db, q, s.creates[q]);
      }
      forall p | p in t.procs ensures ValidProc(t.db, t.procs[p]) {
        ProcStaysValid(s.db, t.db, s.procs[p]);
      }
    case Rollback(k) =>
    case Legacy(p, k) => LegacyIsValid(s.db, k);
    case Deliver(p, j) =>
      TakeKeeps(s.db, j);
      DeliveryIsValid(s.db, j);
      OthersStayValid(s, t, p);
    case Run(p, report) =>
      AdvanceKeeps(s.db, s.procs[p], report);
      OthersStayValid(s, t, p);
    case Raise(p, retryable) => RaisedIsValid(s.db, s.procs[p], retryable);
    case Stop(p) =>
  }

  lemma BeginIsValid(db: Db, k: Key)
    requires Consistent(db)
    ensures var begun := BeginCreate(db, k); begun.Proceed? ==> ValidPlan(db, k, begun.plan)
  {
  }

  lemma ReadIsValid(db: Db, k: Key)
    requires Consistent(db)
    ensures ValidPlan(db, k, ReadJob(db, k))
  {
  }

  lemma LegacyIsValid(db: Db, k: Key)
    requires Consistent(db) && k in db.queries
    ensures var p := StartLegacy(db, k); p.Some? ==> ValidProc(db, p.value) && p.value.query == k
  {
  }

  lemma DeliveryIsValid(db: Db, j: JobId)
    requires Consistent(db) && Deliverable(db, j)
    ensures ValidProc(Take(db, j), StartRun(db.outbox[j].query, j, db.outbox[j].attempts + 1))
  {
  }

  lemma RaisedIsValid(db: Db, p: Proc, retryable: bool)
    requires ValidProc(db, p) && InRun(p)
    ensures ValidProc(db, Raised(p, retryable))
  {
  }

  lemma {:induction false} RunsKeep(s: State, steps: seq<Step>, t: State)
    requires Inv(s) && Leads(s, steps, t)
    ensures Inv(t)
    decreases |steps|
  {
    if steps == [] {
    } else {
      StepKeeps(s, steps[0]);
      RunsKeep(Do(s, steps[0]), steps[1..], t);
    }
  }

  function JobCount(jobs: seq<Job>, k: Key): nat {
    if jobs == [] then 0 else (if jobs[0].query == k then 1 else 0) + JobCount(jobs[1..], k)
  }

  lemma {:induction false} NoJobCounted(jobs: seq<Job>, k: Key)
    requires forall i :: 0 <= i < |jobs| ==> jobs[i].query != k
    ensures JobCount(jobs, k) == 0
  {
    if jobs == [] {
    } else {
      NoJobCounted(jobs[1..], k);
    }
  }

  lemma {:induction false} OneJobCounted(jobs: seq<Job>, k: Key, j: nat)
    requires j < |jobs| && jobs[j].query == k
    requires forall a, b :: 0 <= a < b < |jobs| ==> jobs[a].query != jobs[b].query
    ensures JobCount(jobs, k) == 1
  {
    if j == 0 {
      forall i | 0 <= i < |jobs[1..]| ensures jobs[1..][i].query != k {
        assert jobs[0].query != jobs[i + 1].query;
      }
      NoJobCounted(jobs[1..], k);
    } else {
      assert jobs[0].query != jobs[j].query;
      OneJobCounted(jobs[1..], k, j - 1);
    }
  }

  /** After any run of any calls from empty tables, a listed query has been charged once and has one
      job, and any other key has neither. */
  lemma OneChargeAndOneJobPerQuery(steps: seq<Step>, t: State, k: Key)
    requires Leads(START, steps, t)
    ensures Charges(t.db, k) == if k in t.db.queries then 1 else 0
    ensures JobCount(t.db.jobs, k) == if k in t.db.queries then 1 else 0
  {
    RunsKeep(START, steps, t);
    if k in t.db.queries {
      assert HasSome(t.db.jobs, k);
      var j :| 0 <= j < |t.db.jobs| && t.db.jobs[j].query == k;
      OneJobCounted(t.db.jobs, k, j);
    } else {
      NoJobCounted(t.db.jobs, k);
    }
  }

  /** So a legacy start never has to insert a job, a create call that asks to wait names a pending or
      running job (never the last line of `cached_report_action`), and no report is being generated. */
  lemma DeadBranches(steps: seq<Step>, t: State, k: Key)
    requires Leads(START, steps, t)
    ensures k in t.db.queries ==> StartLegacy(t.db, k) != Some(InsertMissing(k))
    ensures BeginCreate(t.db, k).ReplyWait? ==> LatestStatus(t.db, k) in {Some(Pending), Some(Running)}
    ensures k in t.db.reports ==> t.db.reports[k] !in {Generating, OtherReport}
  {
    RunsKeep(START, steps, t);
    hide Leads;
    NoDeadBranch(t.db, k);
  }

  lemma NoDeadBranch(db: Db, k: Key)
    requires Listed(db) && Statuses(db)
    ensures k in db.queries ==> StartLegacy(db, k) != Some(InsertMissing(k))
    ensures BeginCreate(db, k).ReplyWait? ==> LatestStatus(db, k) in {Some(Pending), Some(Running)}
    ensures k in db.reports ==> db.reports[k] !in {Generating, OtherReport}
  {
    hide Latest;
  }

  ghost predicate StepsTo(s: State, a: Step, t: State) {
    Enabled(s, a) && Do(s, a) == t
  }

  lemma LeadsFirst(s: State, a: Step, s1: State, rest: seq<Step>, t: State)
    requires StepsTo(s, a, s1) && Leads(s1, rest, t)
    ensures Leads(s, [a] + rest, t)
  {
    hide Enabled, Do;
    assert ([a] + rest)[1..] == rest;
  }

  lemma ThreeSteps(s: State, a: Step, s1: State, b: Step, s2: State, c: Step, t: State)
    requires StepsTo(s, a, s1) && StepsTo(s1, b, s2) && StepsTo(s2, c, t)
    ensures Leads(s, [a, b, c], t)
  {
    hide StepsTo;
    assert Leads(t, [], t);
    LeadsFirst(s2, c, t, [], t);
    LeadsFirst(s1, b, s2, [c] + [], t);
    LeadsFirst(s, a, s1, [b] + ([c] + []), t);
    assert [a] + ([b] + ([c] + [])) == [a, b, c];
  }

  lemma FourSteps(s: State, a: Step, s1: State, b: Step, s2: State, c: Step, s3: State, d: Step, t: State)
    requires StepsTo(s, a, s1) && StepsTo(s1, b, s2) && StepsTo(s2, c, s3) && StepsTo(s3, d, t)
    ensures Leads(s, [a, b, c, d], t)
  {
    hide StepsTo;
    assert Leads(t, [], t);
    LeadsFirst(s3, d, t, [], t);
    LeadsFirst(s2, c, s3, [d] + [], t);
    LeadsFirst(s1, b, s2, [c] + ([d] + []), t);
    LeadsFirst(s, a, s1, [b] + ([c] + ([d] + [])), t);
    assert [a] + ([b] + ([c] + ([d] + []))) == [a, b, c, d];
  }

  lemma OnlyJobIsLatest(db: Db, k: Key, j: JobId)
    requires Listed(db) && HasJob(db, j, k)
    ensures Latest(db.jobs, k) == Some(j)
  {
    hide Latest;
    var latest := Latest(db.jobs, k);
    assert latest != None by { assert db.jobs[j].query == k; }
    var i := latest.value;
    assert i == j || i < j || j < i;
  }
}
