/**
 * The shared rate limiter of backend/app/rate_limit.py: one conditional-increment counter per
 * subject, action and aligned hour.  Times are microseconds since an aligned hour in UTC.
 */
module RateLimit {
  import opened Common

  const HOUR := 3600 * 1000000

  /** `now.replace(minute=0, second=0, microsecond=0)` */
  function WindowStart(now: int): (w: int)
    ensures w <= now < w + HOUR && w % HOUR == 0
  {
    now - now % HOUR
  }

  datatype Slot = Slot(subjectHash: string, action: string, windowStart: int)

  datatype Call = Call(subjectHash: string, action: string, now: int) {
    function Key(): Slot { Slot(subjectHash, action, WindowStart(now)) }
  }

  type Counters = map<Slot, nat>

  /** The upsert statement: insert 1, or increment while the stored count is below the limit. */
  function Consume(counters: Counters, call: Call, limit: int): (Counters, Option<nat>) {
    var slot := call.Key();
    if slot !in counters then (counters[slot := 1], Some(1))
    else if counters[slot] < limit then (counters[slot := counters[slot] + 1], Some(counters[slot] + 1))
    else (counters, None)
  }

  datatype StoreError = RateLimitStoreUnavailable

  class SharedRateLimits {
    var counters: Counters
    var expires: map<Slot, int>

    constructor ()
      ensures counters == map[] && expires == map[]
    {
      counters, expires := map[], map[];
    }

    /** `consume_shared_rate_limit`; `storeFails` is whether the database raised. */
    method ConsumeShared(call: Call, limit: int, storeFails: bool) returns (r: Result<Option<nat>, StoreError>)
      modifies this
      ensures storeFails ==> r == Err(RateLimitStoreUnavailable) && counters == old(counters) && expires == old(expires)
      ensures !storeFails ==>
                var (after, answer) := Consume(old(counters), call, limit);
                && counters == after && r == Ok(answer)
                && expires == (if answer == None then old(expires) else old(expires)[call.Key() := call.Key().windowStart + HOUR])
    {
      if storeFails {
        return Err(RateLimitStoreUnavailable);
      }
      var slot := call.Key();
      var stored := if slot in counters then counters[slot] else 0;
      if stored == 0 && slot !in counters {
        counters := counters[slot := 1];
      } else if stored < limit {
        counters := counters[slot := stored + 1];
      } else {
        return Ok(None);
      }
      expires := expires[slot := slot.windowStart + HOUR];
      return Ok(Some(counters[slot]));
    }
  }

  /** `configured_limit`, given what `int` made of the setting: only limits of one or more get through. */
  function ConfiguredLimit(parsed: Option<int>): (r: Result<int, StoreError>)
    ensures r.Ok? <==> parsed.Some? && parsed.value >= 1
    ensures r.Ok? ==> r.value == parsed.value
  {
    match parsed
    case None => Err(RateLimitStoreUnavailable)
    case Some(value) => if value < 1 then Err(RateLimitStoreUnavailable) else Ok(value)
  }

  // ---------------------------------------------------------------------------------------
  // Runs: the calls in the order the database serialises them
  // ---------------------------------------------------------------------------------------

  function After(calls: seq<Call>, limit: int): Counters {
    if calls == [] then map[]
    else Consume(After(calls[..|calls| - 1], limit), calls[|calls| - 1], limit).0
  }

  /** The answer to the k-th call of the run. */
  function Answer(calls: seq<Call>, limit: int, k: nat): Option<nat>
    requires k < |calls|
  {
    Consume(After(calls[..k], limit), calls[k], limit).1
  }

  /** How many of the calls fall into `slot`. */
  function Attempts(calls: seq<Call>, slot: Slot): (n: nat)
    ensures n <= |calls|
  {
    if calls == [] then 0
    else Attempts(calls[..|calls| - 1], slot) + (if calls[|calls| - 1].Key() == slot then 1 else 0)
  }

  /** A slot is created by its first call whatever the limit, so the cap in force is at least one. */
  function Cap(limit: int): (c: nat)
    ensures c >= 1 && (limit >= 1 ==> c == limit)
  {
    if limit >= 1 then limit else 1
  }

  function Min(a: nat, b: nat): nat { if a < b then a else b }

  lemma {:induction false} CounterIsCappedAttempts(calls: seq<Call>, limit: int, slot: Slot)
    ensures var n := Attempts(calls, slot);
            && (slot in After(calls, limit) <==> n > 0)
            && (n > 0 ==> After(calls, limit)[slot] == Min(n, Cap(limit)))
    decreases |calls|
  {
    if calls == [] {
    } else {
      CounterIsCappedAttempts(calls[..|calls| - 1], limit, slot);
    }
  }

  /** The k-th call is granted exactly when fewer earlier calls than the cap fell into its hour,
      and a grant returns its ordinal in that hour: 1, 2, 3, ... up to the limit. */
  lemma GrantsAreOrdinals(calls: seq<Call>, limit: int, k: nat)
    requires k < |calls|
    ensures var earlier := Attempts(calls[..k], calls[k].Key());
            Answer(calls, limit, k) == if earlier < Cap(limit) then Some(earlier + 1) else None
  {
    CounterIsCappedAttempts(calls[..k], limit, calls[k].Key());
  }

  /** A refused call leaves every counter as it was, and a granted one changes only its own. */
  lemma RefusalChangesNothing(counters: Counters, call: Call, limit: int)
    ensures var (after, answer) := Consume(counters, call, limit);
            && (answer == None ==> after == counters)
            && after.Keys == counters.Keys + {call.Key()}
            && (forall s :: s in counters && s != call.Key() ==> after[s] == counters[s])
  {
    var (after, answer) := Consume(counters, call, limit);
    if answer == None {
      assert call.Key() in counters;
      assert counters.Keys + {call.Key()} == counters.Keys;
    }
  }

  /** The grants of one subject and action whose timestamps lie in [from, to]. */
  function Granted(calls: seq<Call>, limit: int, subjectHash: string, action: string, from: int, to: int): nat {
    if calls == [] then 0
    else
      var k := |calls| - 1;
      Granted(calls[..k], limit, subjectHash, action, from, to)
      + (if calls[k].subjectHash == subjectHash && calls[k].action == action && from <= calls[k].now <= to
            && Consume(After(calls[..k], limit), calls[k], limit).1.Some?
         then 1 else 0)
  }

  lemma {:induction false} GrantsPerSlot(calls: seq<Call>, limit: int, slot: Slot)
    requires slot.windowStart % HOUR == 0
    ensures Granted(calls, limit, slot.subjectHash, slot.action, slot.windowStart, slot.windowStart + HOUR - 1)
         == Min(Attempts(calls, slot), Cap(limit))
    decreases |calls|
  {
    if calls == [] {
    } else {
      var k := |calls| - 1;
      GrantsPerSlot(calls[..k], limit, slot);
      CounterIsCappedAttempts(calls[..k], limit, slot);
      SameWindow(calls[k].now, slot.windowStart);
    }
  }

  lemma SameWindow(now: int, start: int)
    requires start % HOUR == 0
    ensures WindowStart(now) == start <==> start <= now < start + HOUR
  {
    if start <= now < start + HOUR {
      assert now % HOUR == (now - start) % HOUR;
    }
  }

  lemma {:induction false} TwoWindowsCover(calls: seq<Call>, limit: int, s: string, a: string, from: int, w: int)
    requires w == WindowStart(from)
    ensures Granted(calls, limit, s, a, from, from + HOUR)
         <= Granted(calls, limit, s, a, w, w + HOUR - 1) + Granted(calls, limit, s, a, w + HOUR, w + HOUR + HOUR - 1)
    decreases |calls|
  {
    if calls == [] {
    } else {
      TwoWindowsCover(calls[..|calls| - 1], limit, s, a, from, w);
    }
  }

  /** Any 60-minute interval, both ends included, holds at most twice the limit. */
  lemma AnyHourHoldsTwiceTheLimit(calls: seq<Call>, limit: int, s: string, a: string, from: int)
    ensures Granted(calls, limit, s, a, from, from + HOUR) <= 2 * Cap(limit)
    ensures from % HOUR == 0 ==> Granted(calls, limit, s, a, from, from + HOUR - 1) <= Cap(limit)
  {
    var w := WindowStart(from);
    TwoWindowsCover(calls, limit, s, a, from, w);
    assert (w + HOUR) % HOUR == 0;
    GrantsPerSlot(calls, limit, Slot(s, a, w));
    GrantsPerSlot(calls, limit, Slot(s, a, w + HOUR));
  }

  function Burst(s: string, a: string, now: int, n: nat): (calls: seq<Call>)
    ensures |calls| == n && forall i :: 0 <= i < n ==> calls[i] == Call(s, a, now)
  {
    seq(n, i => Call(s, a, now))
  }

  lemma {:induction false} BurstAttempts(before: seq<Call>, s: string, a: string, now: int, n: nat)
    ensures Attempts(before + Burst(s, a, now, n), Call(s, a, now).Key())
         == Attempts(before, Call(s, a, now).Key()) + n
    ensures forall slot :: slot != Call(s, a, now).Key() ==>
              Attempts(before + Burst(s, a, now, n), slot) == Attempts(before, slot)
    decreases n
  {
    var calls := before + Burst(s, a, now, n);
    if n == 0 {
      assert calls == before;
    } else {
      assert calls[..|calls| - 1] == before + Burst(s, a, now, n - 1);
      BurstAttempts(before, s, a, now, n - 1);
    }
  }

  lemma {:induction false} GrantedAdds(calls: seq<Call>, limit: int, s: string, a: string, w: int)
    ensures Granted(calls, limit, s, a, w - 1, w)
         == Granted(calls, limit, s, a, w - 1, w - 1) + Granted(calls, limit, s, a, w, w)
    ensures Granted(calls, limit, s, a, w - 1, w) <= Granted(calls, limit, s, a, w - 1, w - 1 + HOUR)
    decreases |calls|
  {
    if calls == [] {
    } else {
      GrantedAdds(calls[..|calls| - 1], limit, s, a, w);
    }
  }

  /** Twice the limit is reached: a burst in the last microsecond of an hour and another in the
      first microsecond of the next one are both granted in full. */
  lemma TwiceTheLimitIsReached(s: string, a: string, limit: nat, w: int)
    requires limit >= 1 && w % HOUR == 0
    ensures var calls := Burst(s, a, w - 1, limit) + Burst(s, a, w, limit);
            Granted(calls, limit, s, a, w - 1, w - 1 + HOUR) == 2 * limit
  {
    hide Granted, Attempts, WindowStart;
    var late, early := Burst(s, a, w - 1, limit), Burst(s, a, w, limit);
    var calls := late + early;
    SameWindow(w - 1, w - HOUR);
    SameWindow(w, w);
    SameWindow(w, w - HOUR);
    var lateSlot, earlySlot := Slot(s, a, w - HOUR), Slot(s, a, w);
    BurstSizes(s, a, limit, w);
    GrantsPerSlot(calls, limit, lateSlot);
    GrantsPerSlot(calls, limit, earlySlot);
    OnlyTheBursts(calls, limit, s, a, w);
    GrantedAdds(calls, limit, s, a, w);
    AnyHourHoldsTwiceTheLimit(calls, limit, s, a, w - 1);
  }

  lemma BurstSizes(s: string, a: string, n: nat, w: int)
    requires w % HOUR == 0
    ensures var calls := Burst(s, a, w - 1, n) + Burst(s, a, w, n);
            Attempts(calls, Slot(s, a, w - HOUR)) == n && Attempts(calls, Slot(s, a, w)) == n
  {
    hide Burst, WindowStart;
    var late := Burst(s, a, w - 1, n);
    SameWindow(w - 1, w - HOUR);
    SameWindow(w, w);
    assert [] + late == late;
    BurstAttempts([], s, a, w - 1, n);
    BurstAttempts(late, s, a, w, n);
  }

  lemma {:induction false} OnlyTheBursts(calls: seq<Call>, limit: int, s: string, a: string, w: int)
    requires forall i :: 0 <= i < |calls| ==> calls[i] == Call(s, a, w - 1) || calls[i] == Call(s, a, w)
    ensures Granted(calls, limit, s, a, w - HOUR, w - 1) == Granted(calls, limit, s, a, w - 1, w - 1)
    ensures Granted(calls, limit, s, a, w, w + HOUR - 1) == Granted(calls, limit, s, a, w, w)
    decreases |calls|
  {
    hide Consume, After;
    if calls != [] {
      assert calls[|calls| - 1] == Call(s, a, w - 1) || calls[|calls| - 1] == Call(s, a, w);
      OnlyTheBursts(calls[..|calls| - 1], limit, s, a, w);
    }
  }
}
