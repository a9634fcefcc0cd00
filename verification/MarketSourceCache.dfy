/**
 * `resolve_market_source_id` of backend/app/main.py: a cached lookup with a check before and a check
 * under an asyncio lock.  Any number of callers interleave; a caller's steps are what it does between
 * two points where another caller may run, or less.
 */
module MarketSourceCache {
  import opened Common

  const TTL := 60.0

  datatype Entry = Entry(id: string, storedAt: real)

  /** A lookup that came back: an id, or nothing (an exception, or no source with an id). */
  datatype Lookup = Lookup(result: Option<string>, at: real)

  datatype Caller =
    | Start
    | Queued
    | Holding
    | LookingUp
    | FromCache(entry: Entry, checkedAt: real)   // returned the entry's id
    | ByLookup(entry: Entry)                     // returned the id it looked up and stored
    | Failed

  /** `log` lists the lookups that came back, in order. */
  datatype State = State(
    clock: real, cache: Option<Entry>, holder: Option<nat>, callers: seq<Caller>, log: seq<Lookup>)

  function Init(callers: nat, clock: real): State {
    State(clock, None, None, seq(callers, i => Start), [])
  }

  predicate Fresh(cache: Option<Entry>, now: real) {
    cache.Some? && now - cache.value.storedAt < TTL
  }

  datatype Step =
    | Tick(to: real)
    | FirstCheck(i: nat)
    | Acquire(i: nat)
    | SecondCheck(i: nat)
    | Finish(i: nat, result: Option<string>)
    | Cancel(i: nat)

  predicate InCritical(c: Caller) {
    c.Holding? || c.LookingUp?
  }

  predicate Enabled(s: State, a: Step) {
    match a
    case Tick(to) => s.clock <= to
    case FirstCheck(i) => i < |s.callers| && s.callers[i].Start?
    case Acquire(i) => i < |s.callers| && s.callers[i].Queued? && s.holder == None
    case SecondCheck(i) => i < |s.callers| && s.callers[i].Holding?
    case Finish(i, _) => i < |s.callers| && s.callers[i].LookingUp?
    case Cancel(i) => i < |s.callers| && (s.callers[i].Queued? || InCritical(s.callers[i]))
  }

  function Becomes(s: State, i: nat, c: Caller): State
    requires i < |s.callers|
  {
    s.(callers := s.callers[i := c])
  }

  function Do(s: State, a: Step): State
    requires Enabled(s, a)
  {
    match a
    case Tick(to) => s.(clock := to)
    case FirstCheck(i) =>
      Becomes(s, i, if Fresh(s.cache, s.clock) then FromCache(s.cache.value, s.clock) else Queued)
    case Acquire(i) => Becomes(s, i, Holding).(holder := Some(i))
    case SecondCheck(i) =>
      if Fresh(s.cache, s.clock) then Becomes(s, i, FromCache(s.cache.value, s.clock)).(holder := None)
      else Becomes(s, i, LookingUp)
    case Finish(i, Some(id)) =>
      var entry := Entry(id, s.clock);
      Becomes(s, i, ByLookup(entry)).(cache := Some(entry), holder := None, log := s.log + [Lookup(Some(id), s.clock)])
    case Finish(i, None) =>
      Becomes(s, i, Failed).(holder := None, log := s.log + [Lookup(None, s.clock)])
    case Cancel(i) =>
      Becomes(s, i, Failed).(holder := if InCritical(s.callers[i]) then None else s.holder)
  }

  /** `steps` lead from `s` to `t`. */
  ghost predicate Leads(s: State, steps: seq<Step>, t: State)
    decreases |steps|
  {
    if steps == [] then s == t
    else Enabled(s, steps[0]) && Leads(Do(s, steps[0]), steps[1..], t)
  }

  // ---------------------------------------------------------------------------------------
  // What every run keeps
  // ---------------------------------------------------------------------------------------

  function LastSuccess(log: seq<Lookup>): Option<Entry>
    decreases |log|
  {
    if log == [] then None
    else
      var last := log[|log| - 1];
      if last.result.Some? then Some(Entry(last.result.value, last.at)) else LastSuccess(log[..|log| - 1])
  }

  /** Each successful lookup comes at least a minute after the one before it. */
  predicate Spaced(log: seq<Lookup>)
    decreases |log|
  {
    log == [] ||
    var last, before := log[|log| - 1], LastSuccess(log[..|log| - 1]);
    && Spaced(log[..|log| - 1])
    && (last.result.Some? && before.Some? ==> last.at - before.value.storedAt >= TTL)
  }

  predicate Sound(s: State, c: Caller) {
    match c
    case FromCache(entry, checkedAt) =>
      Lookup(Some(entry.id), entry.storedAt) in s.log && checkedAt - entry.storedAt < TTL && checkedAt <= s.clock
    case ByLookup(entry) => Lookup(Some(entry.id), entry.storedAt) in s.log
    case LookingUp => !Fresh(s.cache, s.clock)
    case _ => true
  }

  predicate CacheInv(s: State) {
    && s.cache == LastSuccess(s.log) && Spaced(s.log)
    && (s.cache.Some? ==> Lookup(Some(s.cache.value.id), s.cache.value.storedAt) in s.log)
    && (s.cache.Some? ==> s.cache.value.storedAt <= s.clock)
  }

  predicate LockInv(s: State) {
    && (forall i :: 0 <= i < |s.callers| ==> (InCritical(s.callers[i]) <==> s.holder == Some(i)))
    && (s.holder.Some? ==> s.holder.value < |s.callers|)
  }

  predicate CallersSound(s: State) {
    forall i :: 0 <= i < |s.callers| ==> Sound(s, s.callers[i])
  }

  predicate Inv(s: State) {
    CacheInv(s) && LockInv(s) && CallersSound(s)
  }

  lemma LogGrows(log: seq<Lookup>, l: Lookup)
    ensures LastSuccess(log + [l])
         == if l.result.Some? then Some(Entry(l.result.value, l.at)) else LastSuccess(log)
    ensures Spaced(log + [l]) <==>
              Spaced(log) && (l.result.Some? && LastSuccess(log).Some? ==>
                                l.at - LastSuccess(log).value.storedAt >= TTL)
  {
    assert (log + [l])[..|log|] == log;
  }

  lemma StepKeepsCache(s: State, a: Step)
    requires CacheInv(s) && CallersSound(s) && Enabled(s, a)
    ensures CacheInv(Do(s, a))
  {
    if a.Finish? {
      assert Sound(s, s.callers[a.i]);
      LogGrows(s.log, Lookup(a.result, s.clock));
    }
    hide LastSuccess, Spaced;
  }

  lemma StepKeepsLock(s: State, a: Step)
    requires LockInv(s) && Enabled(s, a)
    ensures LockInv(Do(s, a))
  {
    hide Fresh;
  }

  lemma StepKeepsCaller(s: State, a: Step, i: nat)
    requires CacheInv(s) && LockInv(s) && CallersSound(s) && Enabled(s, a) && i < |s.callers|
    ensures Sound(Do(s, a), Do(s, a).callers[i])
  {
    assert Sound(s, s.callers[i]);
    hide LastSuccess, Spaced;
  }

  lemma StepKeeps(s: State, a: Step)
    requires Inv(s) && Enabled(s, a)
    ensures Inv(Do(s, a)) && |Do(s, a).callers| == |s.callers|
  {
    StepKeepsCache(s, a);
    StepKeepsLock(s, a);
    forall i | 0 <= i < |s.callers| ensures Sound(Do(s, a), Do(s, a).callers[i]) {
      StepKeepsCaller(s, a, i);
    }
    hide CacheInv, LockInv, Sound;
  }

  lemma {:induction false} RunsKeep(s: State, steps: seq<Step>, t: State)
    requires Inv(s) && Leads(s, steps, t)
    ensures Inv(t)
    decreases |steps|
  {
    hide Inv;
    if steps != [] {
      StepKeeps(s, steps[0]);
      RunsKeep(Do(s, steps[0]), steps[1..], t);
    }
  }

  lemma InitInv(n: nat, clock: real)
    ensures Inv(Init(n, clock))
  {
  }

  // ---------------------------------------------------------------------------------------
  // Main results
  // ---------------------------------------------------------------------------------------

  /** Over every interleaving, at most one lookup is in flight, and the cache holds the latest
      successful one: a failed or cancelled lookup is never stored. */
  lemma OneLookupInFlight(n: nat, clock: real, steps: seq<Step>, t: State, i: nat, j: nat)
    requires Leads(Init(n, clock), steps, t) && i < |t.callers| && j < |t.callers|
    ensures t.callers[i].LookingUp? && t.callers[j].LookingUp? ==> i == j
    ensures t.cache == LastSuccess(t.log)
  {
    InitInv(n, clock);
    RunsKeep(Init(n, clock), steps, t);
  }

  /** An id that is returned came from a successful lookup: the caller's own, or one stored less than a
      minute before the caller's check. */
  lemma ReturnedIdsAreFresh(n: nat, clock: real, steps: seq<Step>, t: State, i: nat)
    requires Leads(Init(n, clock), steps, t) && i < |t.callers|
    ensures t.callers[i].FromCache? || t.callers[i].ByLookup? ==>
              Lookup(Some(t.callers[i].entry.id), t.callers[i].entry.storedAt) in t.log
    ensures t.callers[i].FromCache? ==> t.callers[i].checkedAt - t.callers[i].entry.storedAt < TTL
  {
    InitInv(n, clock);
    RunsKeep(Init(n, clock), steps, t);
  }

  lemma {:induction false} LastSuccessIsLater(log: seq<Lookup>, i: nat)
    requires Spaced(log) && i < |log| && log[i].result.Some?
    ensures LastSuccess(log).Some? && LastSuccess(log).value.storedAt >= log[i].at
    decreases |log|
  {
    if i < |log| - 1 {
      LastSuccessIsLater(log[..|log| - 1], i);
    }
  }

  lemma {:induction false} SpacedPairwise(log: seq<Lookup>, i: nat, j: nat)
    requires Spaced(log) && i < j < |log| && log[i].result.Some? && log[j].result.Some?
    ensures log[j].at - log[i].at >= TTL
    decreases |log|
  {
    var front := log[..|log| - 1];
    if j < |log| - 1 {
      SpacedPairwise(front, i, j);
    } else {
      LastSuccessIsLater(front, i);
    }
  }

  /** Any two successful lookups of a run are at least a minute apart. */
  lemma LookupsAreAMinuteApart(n: nat, clock: real, steps: seq<Step>, t: State, i: nat, j: nat)
    requires Leads(Init(n, clock), steps, t) && i < j < |t.log|
    requires t.log[i].result.Some? && t.log[j].result.Some?
    ensures t.log[j].at - t.log[i].at >= TTL
  {
    InitInv(n, clock);
    RunsKeep(Init(n, clock), steps, t);
    SpacedPairwise(t.log, i, j);
  }

  /** The results of the lookups that came back during these steps */
  function Results(steps: seq<Step>): seq<Option<string>> {
    if steps == [] then []
    else (if steps[0].Finish? then [steps[0].result] else []) + Results(steps[1..])
  }

  /** The log of any run lists exactly the lookups that came back, failed ones included, in their order. */
  lemma {:induction false} LogListsLookups(s: State, steps: seq<Step>, t: State)
    requires Leads(s, steps, t)
    ensures s.log <= t.log && |t.log| == |s.log| + |Results(steps)|
    ensures forall k :: 0 <= k < |Results(steps)| ==> t.log[|s.log| + k].result == Results(steps)[k]
    decreases |steps|
  {
    if steps == [] {
    } else {
      var u := Do(s, steps[0]);
      LogListsLookups(u, steps[1..], t);
      assert steps[0].Finish? ==> u.log == s.log + [Lookup(steps[0].result, s.clock)];
      hide Do, Enabled;
      assert forall k :: 0 <= k < |u.log| ==> t.log[k] == u.log[k];
    }
  }

  lemma {:induction false} ClockNeverGoesBack(s: State, steps: seq<Step>, t: State)
    requires Leads(s, steps, t)
    ensures s.clock <= t.clock
    decreases |steps|
  {
    if steps == [] {
    } else {
      ClockNeverGoesBack(Do(s, steps[0]), steps[1..], t);
    }
  }

  /** One successful lookup serves a minute: until then no lookup starts or is stored. */
  lemma {:induction false} OneLookupServesAMinute(s: State, steps: seq<Step>, t: State)
    requires Inv(s) && Leads(s, steps, t) && s.cache.Some? && t.clock - s.cache.value.storedAt < TTL
    ensures t.cache == s.cache && t.log == s.log
    ensures forall i :: 0 <= i < |t.callers| ==> !t.callers[i].LookingUp?
    decreases |steps|
  {
    ClockNeverGoesBack(s, steps, t);
    assert Fresh(s.cache, s.clock);
    assert forall i :: 0 <= i < |s.callers| ==> Sound(s, s.callers[i]) && !s.callers[i].LookingUp?;
    if steps != [] {
      StepKeeps(s, steps[0]);
      assert Do(s, steps[0]).cache == s.cache && Do(s, steps[0]).log == s.log;
      hide Inv, Do;
      OneLookupServesAMinute(Do(s, steps[0]), steps[1..], t);
    }
  }

  // ---------------------------------------------------------------------------------------
  // One call
  // ---------------------------------------------------------------------------------------

  datatype SourceError = MarketSourceUnavailable

  /** The steps of one call that starts with this cache: the lock is granted at `second`, after `meanwhile`
      was stored by another caller, and the lookup comes back at `stored`. */
  ghost function ByTheSteps(
    entry: Option<Entry>, first: real, meanwhile: Option<Entry>, second: real, stored: real, row: Option<string>): State
    requires first <= second <= stored
  {
    var checked := Do(State(first, entry, None, [Start], []), FirstCheck(0));
    if !checked.callers[0].Queued? then checked
    else
      var waited := Do(checked.(cache := Waited(entry, meanwhile)), Tick(second));
      var rechecked := Do(Do(waited, Acquire(0)), SecondCheck(0));
      if !rechecked.callers[0].LookingUp? then rechecked
      else Do(Do(rechecked, Tick(stored)), Finish(0, row))
  }

  function ReplyOf(c: Caller): Result<string, SourceError> {
    if c.FromCache? || c.ByLookup? then Ok(c.entry.id) else Err(MarketSourceUnavailable)
  }

  /** The cache when the lock is granted */
  function Waited(entry: Option<Entry>, meanwhile: Option<Entry>): Option<Entry> {
    if meanwhile.Some? then meanwhile else entry
  }

  class Cache {
    var entry: Option<Entry>

    constructor ()
      ensures entry == None
    {
      entry := None;
    }

    /** `resolve_market_source_id` from one caller's side: `first`, `second` and `stored` are its clock
        readings, `meanwhile` what another caller stored while this one waited for the lock, and `row`
        the id its own lookup would bring. */
    method Resolve(
      first: real, meanwhile: Option<Entry>, second: real, stored: real, row: Option<string>)
      returns (r: Result<string, SourceError>)
      requires first <= second <= stored
      modifies this
      ensures var end := ByTheSteps(old(entry), first, meanwhile, second, stored, row);
              && entry == end.cache && r == ReplyOf(end.callers[0]) && end.holder == None
              && (r.Err? <==> end.callers[0] == Failed)
      ensures r.Ok? ==>
                && entry.Some? && entry.value.id == r.value
                && (Fresh(entry, first) || Fresh(entry, second) || entry == Some(Entry(r.value, stored)))
      ensures r.Err? ==> row == None && !Fresh(entry, second)
    {
      if Fresh(entry, first) {
        return Ok(entry.value.id);
      }
      if meanwhile.Some? {
        entry := meanwhile;
      }
      if Fresh(entry, second) {
        return Ok(entry.value.id);
      }
      if row == None {
        return Err(MarketSourceUnavailable);
      }
      entry := Some(Entry(row.value, stored));
      return Ok(row.value);
    }
  }
}
