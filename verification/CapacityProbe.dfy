/**
 * The bounded burst of scripts/staging_capacity_probe.py: N tasks, one semaphore and shared
 * counters.  The event loop switches tasks only where a task awaits, so everything a task does
 * between two awaits is one step: `Enter` (semaphore granted up to the call of the operation)
 * and `Finish` (operation settled up to the release of the semaphore).
 */
module CapacityProbe {
  import opened Common

  /** How an awaited operation settles: it returns, raises an `Exception`, or is cancelled (which
      is not an `Exception`, so neither branch of the `try` counts it). */
  datatype Settled = Returned | Raised | Cancelled

  datatype Task = Waiting | Active | Done(how: Settled)

  datatype State = State(
    tasks: seq<Task>, free: int, active: int, maxInFlight: int,
    succeeded: int, failed: int, latencies: int, acquireWaits: int)

  function Start(n: nat, concurrency: nat): State {
    State(seq(n, i => Waiting), concurrency, 0, 0, 0, 0, 0, 0)
  }

  function Max(a: int, b: int): int { if a < b then b else a }

  predicate CanEnter(s: State, i: nat) {
    i < |s.tasks| && s.tasks[i] == Waiting && s.free > 0
  }

  function Enter(s: State, i: nat): State
    requires CanEnter(s, i)
  {
    s.(tasks := s.tasks[i := Active], free := s.free - 1, active := s.active + 1,
       maxInFlight := Max(s.maxInFlight, s.active + 1), acquireWaits := s.acquireWaits + 1)
  }

  predicate CanFinish(s: State, i: nat) {
    i < |s.tasks| && s.tasks[i] == Active
  }

  function Finish(s: State, i: nat, how: Settled): State
    requires CanFinish(s, i)
  {
    s.(tasks := s.tasks[i := Done(how)], free := s.free + 1, active := s.active - 1,
       succeeded := s.succeeded + (if how == Returned then 1 else 0),
       failed := s.failed + (if how == Raised then 1 else 0),
       latencies := s.latencies + 1)
  }

  /** One step of any task. */
  ghost predicate Next(s: State, t: State) {
    || (exists i :: CanEnter(s, i) && t == Enter(s, i))
    || (exists i, how :: CanFinish(s, i) && t == Finish(s, i, how))
  }

  function Count(tasks: seq<Task>, t: Task): (n: nat)
    ensures n <= |tasks|
  {
    if tasks == [] then 0 else (if tasks[0] == t then 1 else 0) + Count(tasks[1..], t)
  }

  lemma {:induction false} CountAfterUpdate(tasks: seq<Task>, i: nat, next: Task, t: Task)
    requires i < |tasks|
    ensures Count(tasks[i := next], t)
         == Count(tasks, t) - (if tasks[i] == t then 1 else 0) + (if next == t then 1 else 0)
    decreases |tasks|
  {
    if i == 0 {
      assert tasks[i := next][1..] == tasks[1..];
    } else {
      assert tasks[i := next][1..] == tasks[1..][i - 1 := next];
      CountAfterUpdate(tasks[1..], i - 1, next, t);
    }
  }

  lemma {:induction false} CountsCoverTasks(tasks: seq<Task>)
    ensures Count(tasks, Waiting) + Count(tasks, Active) + Count(tasks, Done(Returned))
            + Count(tasks, Done(Raised)) + Count(tasks, Done(Cancelled)) == |tasks|
  {
    if tasks == [] {
    } else {
      CountsCoverTasks(tasks[1..]);
      match tasks[0]
      case Waiting =>
      case Active =>
      case Done(how) => assert how == Returned || how == Raised || how == Cancelled;
    }
  }

  lemma {:induction false} CountOfFresh(n: nat, t: Task)
    ensures Count(Start(n, 0).tasks, t) == if t == Waiting then n else 0
  {
    if n == 0 {
    } else {
      assert Start(n, 0).tasks[1..] == Start(n - 1, 0).tasks;
      CountOfFresh(n - 1, t);
    }
  }

  /** The shared counters tell the truth about the tasks, and the semaphore holds the rest. */
  ghost predicate Inv(s: State, n: nat, concurrency: nat) {
    && |s.tasks| == n
    && s.active == Count(s.tasks, Active)
    && s.free == concurrency - s.active && s.free >= 0
    && s.succeeded == Count(s.tasks, Done(Returned))
    && s.failed == Count(s.tasks, Done(Raised))
    && s.latencies == s.succeeded + s.failed + Count(s.tasks, Done(Cancelled))
    && s.acquireWaits == n - Count(s.tasks, Waiting)
    && s.active <= s.maxInFlight <= n && s.maxInFlight <= concurrency
  }

  lemma InvAtStart(n: nat, concurrency: nat)
    ensures Inv(Start(n, concurrency), n, concurrency)
  {
    forall t ensures Count(Start(n, concurrency).tasks, t) == if t == Waiting then n else 0 {
      assert Start(n, concurrency).tasks == Start(n, 0).tasks;
      CountOfFresh(n, t);
    }
  }

  lemma InvEnter(s: State, i: nat, n: nat, concurrency: nat)
    requires Inv(s, n, concurrency) && CanEnter(s, i)
    ensures Inv(Enter(s, i), n, concurrency)
  {
    forall t ensures Count(Enter(s, i).tasks, t)
                  == Count(s.tasks, t) - (if t == Waiting then 1 else 0) + (if t == Active then 1 else 0) {
      CountAfterUpdate(s.tasks, i, Active, t);
    }
  }

  lemma InvFinish(s: State, i: nat, how: Settled, n: nat, concurrency: nat)
    requires Inv(s, n, concurrency) && CanFinish(s, i)
    ensures Inv(Finish(s, i, how), n, concurrency)
  {
    forall t ensures Count(Finish(s, i, how).tasks, t)
                  == Count(s.tasks, t) - (if t == Active then 1 else 0) + (if t == Done(how) then 1 else 0) {
      CountAfterUpdate(s.tasks, i, Done(how), t);
    }
  }

  lemma InvNext(s: State, t: State, n: nat, concurrency: nat)
    requires Inv(s, n, concurrency) && Next(s, t)
    ensures Inv(t, n, concurrency)
  {
    if i :| CanEnter(s, i) && t == Enter(s, i) {
      InvEnter(s, i, n, concurrency);
    } else {
      var i, how :| CanFinish(s, i) && t == Finish(s, i, how);
      InvFinish(s, i, how, n, concurrency);
    }
  }

  // ---------------------------------------------------------------------------------------
  // Whole runs
  // ---------------------------------------------------------------------------------------

  ghost predicate IsRun(run: seq<State>, n: nat, concurrency: nat) {
    && run != []
    && run[0] == Start(n, concurrency)
    && forall k :: 0 <= k < |run| - 1 ==> Next(run[k], run[k + 1])
  }

  predicate Finished(s: State) {
    forall i :: 0 <= i < |s.tasks| ==> s.tasks[i].Done?
  }

  lemma {:induction false} InvAlongRun(run: seq<State>, n: nat, concurrency: nat, k: nat)
    requires IsRun(run, n, concurrency) && k < |run|
    ensures Inv(run[k], n, concurrency)
    decreases k
  {
    if k == 0 {
      InvAtStart(n, concurrency);
    } else {
      InvAlongRun(run, n, concurrency, k - 1);
      InvNext(run[k - 1], run[k], n, concurrency);
    }
  }

  /** The largest number of tasks that were active at once in any state of the run. */
  function PeakActive(run: seq<State>): int {
    if run == [] then 0 else Max(PeakActive(run[..|run| - 1]), run[|run| - 1].active)
  }

  lemma {:induction false} RecordedMaximum(run: seq<State>, n: nat, concurrency: nat)
    requires IsRun(run, n, concurrency)
    ensures run[|run| - 1].maxInFlight == PeakActive(run)
    decreases |run|
  {
    var init, last := run[..|run| - 1], run[|run| - 1];
    if |run| > 1 {
      assert forall k :: 0 <= k < |init| ==> init[k] == run[k];
      RecordedMaximum(init, n, concurrency);
      var before := run[|run| - 2];
      assert Next(run[|run| - 2], run[|run| - 1]);
      InvAlongRun(run, n, concurrency, |run| - 2);
    }
  }

  /** Over every interleaving the bound holds in every state, the recorded maximum is the true
      one, and once every task has settled the counters account for all of them. */
  lemma EveryInterleaving(run: seq<State>, n: nat, concurrency: nat, k: nat)
    requires IsRun(run, n, concurrency) && k < |run|
    ensures var s := run[k];
            && 0 <= s.active <= n && s.active <= concurrency
            && s.active == Count(s.tasks, Active)
            && s.maxInFlight == PeakActive(run[..k + 1])
            && s.latencies <= s.acquireWaits <= n
            && (Finished(s) ==>
                  var cancelled := Count(s.tasks, Done(Cancelled));
                  && s.active == 0 && s.free == concurrency
                  && s.succeeded + s.failed + cancelled == n
                  && s.latencies == n && s.acquireWaits == n)
  {
    var prefix := run[..k + 1];
    assert IsRun(prefix, n, concurrency) by {
      assert forall j :: 0 <= j < |prefix| ==> prefix[j] == run[j];
    }
    RecordedMaximum(prefix, n, concurrency);
    InvAlongRun(run, n, concurrency, k);
    CountsCoverTasks(run[k].tasks);
    if Finished(run[k]) {
      NoneLeft(run[k].tasks);
    }
  }

  lemma {:induction false} NoneLeft(tasks: seq<Task>)
    requires forall i :: 0 <= i < |tasks| ==> tasks[i].Done?
    ensures Count(tasks, Waiting) == 0 && Count(tasks, Active) == 0
  {
    if tasks == [] {
    } else {
      NoneLeft(tasks[1..]);
    }
  }

  /** Work left: two steps per waiting task, one per active task. */
  function Remaining(s: State): nat {
    2 * Count(s.tasks, Waiting) + Count(s.tasks, Active)
  }

  lemma StepsUseUpWork(s: State, t: State)
    requires Next(s, t)
    ensures Remaining(t) == Remaining(s) - 1
  {
    if i :| CanEnter(s, i) && t == Enter(s, i) {
      CountAfterUpdate(s.tasks, i, Active, Waiting);
      CountAfterUpdate(s.tasks, i, Active, Active);
    } else {
      var i, how :| CanFinish(s, i) && t == Finish(s, i, how);
      CountAfterUpdate(s.tasks, i, Done(how), Waiting);
      CountAfterUpdate(s.tasks, i, Done(how), Active);
    }
  }

  lemma {:induction false} FindTask(tasks: seq<Task>, t: Task) returns (i: nat)
    requires Count(tasks, t) > 0
    ensures i < |tasks| && tasks[i] == t
  {
    if tasks[0] == t {
      i := 0;
    } else {
      var j := FindTask(tasks[1..], t);
      i := j + 1;
    }
  }

  /** The burst never deadlocks: until every task has settled some task can move. */
  lemma SomeTaskCanMove(s: State, n: nat, concurrency: nat)
    requires Inv(s, n, concurrency) && concurrency >= 1 && !Finished(s)
    ensures exists i: nat :: CanEnter(s, i) || CanFinish(s, i)
  {
    var i :| 0 <= i < |s.tasks| && !s.tasks[i].Done?;
    if s.active > 0 {
      var j := FindTask(s.tasks, Active);
      assert CanFinish(s, j);
    } else if s.tasks[i] == Active {
      assert CanFinish(s, i);
    } else {
      assert CanEnter(s, i);
    }
  }

  lemma {:induction false} WorkAlongRun(run: seq<State>, n: nat, concurrency: nat, k: nat)
    requires IsRun(run, n, concurrency) && k < |run|
    ensures Remaining(run[k]) + k == 2 * n
    decreases k
  {
    if k == 0 {
      assert Start(n, concurrency).tasks == Start(n, 0).tasks;
      CountOfFresh(n, Waiting);
      CountOfFresh(n, Active);
    } else {
      WorkAlongRun(run, n, concurrency, k - 1);
      assert Next(run[k - 1], run[k]);
      StepsUseUpWork(run[k - 1], run[k]);
    }
  }

  /** Every run settles all tasks after exactly two steps per task, whatever the interleaving. */
  lemma RunsSettleInTwoStepsPerTask(run: seq<State>, n: nat, concurrency: nat, k: nat)
    requires IsRun(run, n, concurrency) && k < |run| && concurrency >= 1
    ensures k <= 2 * n && (Finished(run[k]) <==> k == 2 * n)
  {
    WorkAlongRun(run, n, concurrency, k);
    InvAlongRun(run, n, concurrency, k);
    if Finished(run[k]) {
      NoneLeft(run[k].tasks);
    } else {
      SomeTaskCanMove(run[k], n, concurrency);
      var i: nat :| CanEnter(run[k], i) || CanFinish(run[k], i);
      CountAfterUpdate(run[k].tasks, i, Done(Returned), Waiting);
      CountAfterUpdate(run[k].tasks, i, Done(Returned), Active);
    }
  }

  // ---------------------------------------------------------------------------------------
  // The probe: a scheduler that may pick any task that can move
  // ---------------------------------------------------------------------------------------

  datatype ProbeError = NotAPositiveInteger | TaskCancelled

  datatype Stats = Stats(total: nat, succeeded: int, failed: int, latencies: int, maxInFlight: int)

  function CountOutcomes(outcomes: seq<Settled>, how: Settled): nat {
    if outcomes == [] then 0 else (if outcomes[0] == how then 1 else 0) + CountOutcomes(outcomes[1..], how)
  }

  lemma {:induction false} SettledTasksCount(tasks: seq<Task>, outcomes: seq<Settled>, how: Settled)
    requires |tasks| == |outcomes|
    requires forall i :: 0 <= i < |tasks| ==> tasks[i] == Done(outcomes[i])
    ensures Count(tasks, Done(how)) == CountOutcomes(outcomes, how)
  {
    if tasks == [] {
    } else {
      SettledTasksCount(tasks[1..], outcomes[1..], how);
    }
  }

  /** `run_async_probe`: `outcomes[i]` is how the operation of task i settles.  The statistics
      depend on the outcomes alone, never on the interleaving; only the recorded maximum does. */
  method RunAsyncProbe(outcomes: seq<Settled>, concurrency: int) returns (r: Result<Stats, ProbeError>)
    ensures |outcomes| == 0 || concurrency <= 0 ==> r == Err(NotAPositiveInteger)
    ensures |outcomes| > 0 && concurrency > 0 ==>
              if Cancelled in outcomes then r == Err(TaskCancelled)
              else
                && r.Ok?
                && r.value.total == |outcomes| == r.value.latencies
                && r.value.succeeded == CountOutcomes(outcomes, Returned)
                && r.value.failed == CountOutcomes(outcomes, Raised)
                && r.value.succeeded + r.value.failed == |outcomes|
                && 1 <= r.value.maxInFlight <= |outcomes|
                && r.value.maxInFlight <= concurrency
  {
    if |outcomes| == 0 || concurrency <= 0 {
      return Err(NotAPositiveInteger);
    }
    var n := |outcomes|;
    var s := Start(n, concurrency);
    InvAtStart(n, concurrency);
    while !Finished(s)
      invariant Inv(s, n, concurrency)
      invariant forall i :: 0 <= i < n ==> s.tasks[i].Done? ==> s.tasks[i].how == outcomes[i]
      invariant s.maxInFlight >= 1 || forall i :: 0 <= i < n ==> s.tasks[i] == Waiting
      decreases Remaining(s)
    {
      SomeTaskCanMove(s, n, concurrency);
      var i: nat :| i < n && (CanEnter(s, i) || CanFinish(s, i));
      if CanEnter(s, i) {
        InvEnter(s, i, n, concurrency);
        StepsUseUpWork(s, Enter(s, i));
        s := Enter(s, i);
      } else {
        InvFinish(s, i, outcomes[i], n, concurrency);
        StepsUseUpWork(s, Finish(s, i, outcomes[i]));
        s := Finish(s, i, outcomes[i]);
      }
    }
    CountsCoverTasks(s.tasks);
    NoneLeft(s.tasks);
    SettledTasksCount(s.tasks, outcomes, Returned);
    SettledTasksCount(s.tasks, outcomes, Raised);
    SettledTasksCount(s.tasks, outcomes, Cancelled);
    CountPositive(outcomes, Cancelled);
    if Cancelled in outcomes {
      return Err(TaskCancelled);
    }
    return Ok(Stats(n, s.succeeded, s.failed, s.latencies, s.maxInFlight));
  }

  lemma {:induction false} CountPositive(outcomes: seq<Settled>, how: Settled)
    ensures CountOutcomes(outcomes, how) > 0 <==> how in outcomes
  {
    if outcomes == [] {
    } else {
      CountPositive(outcomes[1..], how);
      assert outcomes == [outcomes[0]] + outcomes[1..];
    }
  }

  // ---------------------------------------------------------------------------------------
  // Error budget
  // ---------------------------------------------------------------------------------------

  /** `within_error_budget` over real arithmetic: the integer bound accepts exactly the failure rates within
      the fraction. */
  function WithinErrorBudget(total: int, failed: int, fraction: real): (r: Option<bool>)
    ensures r == None <==> failed < 0 || failed > total || total <= 0 || !(0.0 <= fraction < 1.0)
    ensures r.Some? ==> (r.value <==> failed as real / total as real <= fraction)
  {
    if failed < 0 || failed > total || total <= 0 || !(0.0 <= fraction < 1.0) then None
    else
      Quotient(failed as real, total as real, fraction);
      Some(failed <= (total as real * fraction).Floor)
  }

  lemma Quotient(a: real, n: real, f: real)
    requires n > 0.0
    ensures a / n <= f <==> a <= n * f
  {
    var q := a / n;
    assert q * n == a;
    if q <= f {
      assert (f - q) * n >= 0.0;
    } else {
      assert (q - f) * n > 0.0;
    }
  }

  // ---------------------------------------------------------------------------------------
  // The bounded queue and its drain
  // ---------------------------------------------------------------------------------------

  /** `SyntheticJobQueue`: rejects when full, hands items out in the order it accepted them. */
  class SyntheticJobQueue<T(==)> {
    const capacity: nat
    var items: seq<T>
    var rejected: nat
    var maxDepth: nat
    ghost var accepted: seq<T>   // every item ever accepted, in order
    ghost var delivered: seq<T>  // every item ever handed out, in order

    ghost predicate Valid()
      reads this
    {
      && accepted == delivered + items
      && |items| <= maxDepth <= capacity
    }

    constructor (capacity: nat)
      requires capacity > 0
      ensures Valid() && this.capacity == capacity
      ensures items == [] && rejected == 0 && maxDepth == 0 && accepted == [] && delivered == []
    {
      this.capacity := capacity;
      items, rejected, maxDepth, accepted, delivered := [], 0, 0, [], [];
    }

    method Enqueue(item: T) returns (ok: bool)
      requires Valid()
      modifies this
      ensures Valid() && delivered == old(delivered)
      ensures ok <==> |old(items)| < capacity
      ensures ok ==> items == old(items) + [item] && accepted == old(accepted) + [item] && rejected == old(rejected)
      ensures ok ==> maxDepth == Max(old(maxDepth), |items|)
      ensures !ok ==> items == old(items) && accepted == old(accepted) && rejected == old(rejected) + 1
      ensures !ok ==> maxDepth == old(maxDepth)
    {
      if |items| >= capacity {
        rejected := rejected + 1;
        return false;
      }
      items := items + [item];
      accepted := accepted + [item];
      maxDepth := Max(maxDepth, |items|);
      return true;
    }

    method Dequeue() returns (r: Option<T>)
      requires Valid()
      modifies this
      ensures Valid() && accepted == old(accepted) && rejected == old(rejected) && maxDepth == old(maxDepth)
      ensures old(items) == [] ==> r == None && items == [] && delivered == old(delivered)
      ensures old(items) != [] ==> r == Some(old(items)[0]) && items == old(items)[1..] && delivered == old(delivered) + [old(items)[0]]
    {
      if items == [] {
        return None;
      }
      var item := items[0];
      assert items == [item] + items[1..];
      assert delivered + items == (delivered + [item]) + items[1..];
      items := items[1..];
      delivered := delivered + [item];
      return Some(item);
    }
  }

  datatype Worker = Idle | Serving | Gone

  function CountServing(workers: seq<Worker>): (n: nat)
    ensures n <= |workers|
  {
    if workers == [] then 0 else (if workers[0] == Serving then 1 else 0) + CountServing(workers[1..])
  }

  /** Two steps for a serving worker, one for an idle one: what is left apart from queued items. */
  function Effort(workers: seq<Worker>): nat {
    if workers == [] then 0
    else (match workers[0] case Idle => 1 case Serving => 2 case Gone => 0) + Effort(workers[1..])
  }

  lemma {:induction false} WorkerStep(workers: seq<Worker>, i: nat, w: Worker)
    requires i < |workers|
    ensures CountServing(workers[i := w]) == CountServing(workers)
              - (if workers[i] == Serving then 1 else 0) + (if w == Serving then 1 else 0)
    ensures Effort(workers[i := w]) == Effort(workers)
              - (match workers[i] case Idle => 1 case Serving => 2 case Gone => 0)
              + (match w case Idle => 1 case Serving => 2 case Gone => 0)
    decreases i
  {
    if i == 0 {
      assert workers[i := w][1..] == workers[1..];
    } else {
      assert workers[i := w][1..] == workers[1..][i - 1 := w];
      WorkerStep(workers[1..], i - 1, w);
    }
  }

  lemma {:induction false} AllGone(workers: seq<Worker>)
    requires forall i :: 0 <= i < |workers| ==> workers[i] == Gone
    ensures CountServing(workers) == 0
  {
    if workers == [] {
    } else {
      AllGone(workers[1..]);
    }
  }

  datatype QueueStats = QueueStats(offered: int, accepted: int, rejected: int, completed: int, maxDepth: int)

  /** `run_queue_probe`: the burst is offered first, then the workers drain in any interleaving.
      Exactly the first `capacity` jobs are accepted, every accepted job completes, and the
      depth recorded is the number accepted. */
  method RunQueueProbe(capacity: int, jobs: int, workerCount: int) returns (r: Result<QueueStats, ProbeError>)
    ensures capacity <= 0 || jobs <= 0 || workerCount <= 0 ==> r == Err(NotAPositiveInteger)
    ensures capacity > 0 && jobs > 0 && workerCount > 0 ==>
              var kept := if jobs < capacity then jobs else capacity;
              r == Ok(QueueStats(jobs, kept, jobs - kept, kept, kept))
  {
    if capacity <= 0 || jobs <= 0 || workerCount <= 0 {
      return Err(NotAPositiveInteger);
    }
    var queue := new SyntheticJobQueue<int>(capacity);
    for j := 0 to jobs
      invariant queue.Valid() && fresh(queue) && queue.capacity == capacity
      invariant |queue.items| == (if j < capacity then j else capacity)
      invariant queue.rejected == j - |queue.items| && queue.maxDepth == |queue.items| == |queue.accepted|
    {
      var _ := queue.Enqueue(j + 1);
    }
    var completed := 0;
    var workers := seq(workerCount, i => Idle);
    CountNoneServing(workers);
    ghost var kept := |queue.accepted|;
    while exists i :: 0 <= i < |workers| && workers[i] != Gone
      invariant queue.Valid() && fresh(queue) && |queue.accepted| == kept
      invariant queue.maxDepth == kept && queue.rejected == jobs - kept
      invariant |workers| == workerCount
      invariant completed + CountServing(workers) + |queue.items| == kept
      invariant (forall i :: 0 <= i < |workers| ==> workers[i] != Gone) || queue.items == []
      decreases 2 * |queue.items| + Effort(workers)
    {
      var i :| 0 <= i < |workers| && workers[i] != Gone;
      if workers[i] == Idle {
        var item := queue.Dequeue();
        WorkerStep(workers, i, if item == None then Gone else Serving);
        workers := workers[i := if item == None then Gone else Serving];
      } else {
        WorkerStep(workers, i, Idle);
        completed := completed + 1;
        workers := workers[i := Idle];
      }
    }
    AllGone(workers);
    assert queue.items == [] by {
      assert workers[0] == Gone;
    }
    return Ok(QueueStats(jobs, jobs - queue.rejected, queue.rejected, completed, queue.maxDepth));
  }

  lemma {:induction false} CountNoneServing(workers: seq<Worker>)
    requires forall i :: 0 <= i < |workers| ==> workers[i] == Idle
    ensures CountServing(workers) == 0
  {
    if workers == [] {
    } else {
      CountNoneServing(workers[1..]);
    }
  }
}
