/**
 * The demo-password rate limiter (`checkAndUpdateDemoCounter`): a fixed-window
 * counter bucketed by wall-clock hour, kept under the key `demo_counter` of an
 * optional key-value store (`getKV`/`setKV`), with an in-process record
 * (`demoMemory`) that takes over when no store is bound.
 */
module DemoLimit {
  import opened Wrappers
  import opened Strings

  /** Milliseconds per hour bucket. */
  const HourMs := 3600000

  /** The fixed key of the counter record. */
  const CounterKey := "demo_counter"

  /** `Math.floor(now / 3600000)`: the hour bucket a clock reading falls in. */
  function HourOf(nowMs: int): (h: int)
    ensures h * HourMs <= nowMs < (h + 1) * HourMs
  {
    nowMs / HourMs
  }

  /** `{hour, times, maxTimes}`; `times` grows by fractional amounts for auxiliary calls. */
  datatype DemoRecord = DemoRecord(hour: int, times: real, maxTimes: int)

  /** `{allowed, message, data}` as the limiter returns it. */
  datatype Verdict = Verdict(allowed: bool, message: string, data: DemoRecord)

  /** The refusal text when the stored (or fresh) record is full. */
  function StoreQuotaMessage(maxTimes: int): string
  {
    "Exceeded maximum API calls (" + IntToDecimal(maxTimes) + ") for this hour. Please try again next hour."
  }

  /** The refusal text when the in-process record is full. */
  function MemoryQuotaMessage(maxTimes: int): string
  {
    "Exceeded maximum API calls (" + IntToDecimal(maxTimes) + ") for this hour"
  }

  /** Everything the limiter's decisions depend on. */
  datatype LimiterState = LimiterState(
    storePresent: bool,
    store: map<string, DemoRecord>,
    memHour: int,
    memTimes: real)

  /** What `getKV('demo_counter')` yields: nothing when no store is bound. */
  function Stored(st: LimiterState): Option<DemoRecord>
  {
    if st.storePresent && CounterKey in st.store then Some(st.store[CounterKey]) else None
  }

  /** The record a check in `hour` works on: the stored one if it is for this hour, else a fresh one. */
  function Current(st: LimiterState, hour: int, demoMax: int): DemoRecord
  {
    match Stored(st)
    case Some(r) => if r.hour == hour then r else DemoRecord(hour, 0.0, demoMax)
    case None => DemoRecord(hour, 0.0, demoMax)
  }

  /** The in-process count that applies in `hour` (a different hour counts as zero). */
  function MemUsed(st: LimiterState, hour: int): real
  {
    if st.memHour == hour then st.memTimes else 0.0
  }

  /**
   * One call of the limiter in `hour` charging `increment`, as a function of
   * the state before it: the verdict and the state after it.
   */
  function Step(st: LimiterState, hour: int, increment: real, demoMax: int): (Verdict, LimiterState)
  {
    var rec := Current(st, hour, demoMax);
    if rec.times >= rec.maxTimes as real then
      (Verdict(false, StoreQuotaMessage(rec.maxTimes), rec), st)
    else
      var next := rec.(times := rec.times + increment);
      if st.storePresent then
        (Verdict(true, "OK", next), st.(store := st.store[CounterKey := next]))
      else if st.memHour == hour && st.memTimes >= demoMax as real then
        (Verdict(false, MemoryQuotaMessage(demoMax), DemoRecord(hour, st.memTimes, demoMax)), st)
      else
        (Verdict(true, "OK", next), st.(memHour := hour, memTimes := MemUsed(st, hour) + increment))
  }

  /** The limiter as the source keeps it: an optional store and the `demoMemory` fields. */
  class DemoLimiter {
    /** Whether a key-value store is bound (`kvStore` is not null). */
    const storePresent: bool
    /** The contents of the key-value store. */
    var store: map<string, DemoRecord>
    /** `demoMemory.hour`. */
    var memHour: int
    /** `demoMemory.times`. */
    var memTimes: real

    /** A limiter over the given store, with `demoMemory` at its initial `{hour: 0, times: 0}`. */
    constructor (storePresent: bool, store: map<string, DemoRecord>)
      ensures State() == LimiterState(storePresent, store, 0, 0.0)
    {
      this.storePresent := storePresent;
      this.store := store;
      memHour := 0;
      memTimes := 0.0;
    }

    /** The abstract state of this limiter. */
    function State(): LimiterState
      reads this
    {
      LimiterState(storePresent, store, memHour, memTimes)
    }

    /** `getKV(key)`: the stored value, or `null` when absent or when no store is bound. */
    method GetKV(key: string) returns (r: Option<DemoRecord>)
      ensures r.Some? <==> storePresent && key in store
      ensures r.Some? ==> r.value == store[key]
    {
      if !storePresent {
        return None;
      }
      if key in store {
        r := Some(store[key]);
      } else {
        r := None;
      }
    }

    /** `setKV(key, value)`: writes when a store is bound, and says whether it did. */
    method SetKV(key: string, value: DemoRecord) returns (ok: bool)
      modifies this
      ensures ok == storePresent
      ensures store == if storePresent then old(store)[key := value] else old(store)
      ensures memHour == old(memHour) && memTimes == old(memTimes)
    {
      if !storePresent {
        return false;
      }
      store := store[key := value];
      ok := true;
    }

    /**
     * `checkAndUpdateDemoCounter(increment)` at clock reading `nowMs`, with
     * `demoMax` the configured `DEMO_MAX_TIMES`.
     */
    method CheckAndUpdate(nowMs: int, increment: real, demoMax: int) returns (v: Verdict)
      modifies this
      ensures (v, State()) == Step(old(State()), HourOf(nowMs), increment, demoMax)
    {
      var hour := nowMs / HourMs;
      var demoData := GetKV(CounterKey);
      var rec: DemoRecord;
      if demoData.None? || demoData.value.hour != hour {
        rec := DemoRecord(hour, 0.0, demoMax);
      } else {
        rec := demoData.value;
      }
      if rec.times >= rec.maxTimes as real {
        return Verdict(false, StoreQuotaMessage(rec.maxTimes), rec);
      }
      rec := rec.(times := rec.times + increment);
      var _ := SetKV(CounterKey, rec);
      if !storePresent {
        if memHour == hour {
          if memTimes >= demoMax as real {
            return Verdict(false, MemoryQuotaMessage(demoMax), DemoRecord(hour, memTimes, demoMax));
          }
        } else {
          memHour := hour;
          memTimes := 0.0;
        }
        memTimes := memTimes + increment;
      }
      v := Verdict(true, "OK", rec);
    }
  }

  /** A denied call leaves the store and the in-process record exactly as they were. */
  lemma DeniedChangesNothing(st: LimiterState, hour: int, increment: real, demoMax: int)
    ensures !Step(st, hour, increment, demoMax).0.allowed ==> Step(st, hour, increment, demoMax).1 == st
  {
  }

  /**
   * With a store bound: a call is allowed exactly when the current record
   * (a fresh `{hour, 0, demoMax}` if none is stored for this hour) is below
   * its own `maxTimes`; an allowed call writes that record back with `times`
   * grown by exactly `increment`, and touches no other key and not the
   * in-process record.
   */
  lemma StoreModeStep(st: LimiterState, hour: int, increment: real, demoMax: int)
    requires st.storePresent
    ensures var (v, st') := Step(st, hour, increment, demoMax);
      var rec := Current(st, hour, demoMax);
      && (v.allowed <==> rec.times < rec.maxTimes as real)
      && (v.allowed ==> st'.store == st.store[CounterKey := DemoRecord(hour, rec.times + increment, rec.maxTimes)])
      && st'.memHour == st.memHour && st'.memTimes == st.memTimes
  {
    var rec := Current(st, hour, demoMax);
    assert rec.hour == hour;
  }

  /**
   * Without a store: the fresh record is checked first (so a quota of zero or
   * less refuses everything), then the in-process record, reset when the hour
   * changed; an allowed call adds exactly `increment` to it.
   */
  lemma MemoryModeStep(st: LimiterState, hour: int, increment: real, demoMax: int)
    requires !st.storePresent
    ensures var (v, st') := Step(st, hour, increment, demoMax);
      && (v.allowed <==> 0.0 < demoMax as real && MemUsed(st, hour) < demoMax as real)
      && (v.allowed ==> st'.memHour == hour && st'.memTimes == MemUsed(st, hour) + increment)
      && st'.store == st.store
  {
  }

  /** No record for `hour` has been kept yet: the next call in `hour` starts from zero. */
  predicate FreshFor(st: LimiterState, hour: int)
  {
    && (st.storePresent ==> Stored(st).None? || Stored(st).value.hour != hour)
    && (!st.storePresent ==> st.memHour != hour)
  }

  /** `u` whole calls have been charged in `hour` against a quota of `m`. */
  predicate Counted(st: LimiterState, hour: int, m: int, u: nat)
  {
    && (st.storePresent ==> Current(st, hour, m) == DemoRecord(hour, u as real, m))
    && (!st.storePresent ==> MemUsed(st, hour) == u as real)
  }

  /** `k` successive calls in one hour, each charging `increment`: their verdicts and the final state. */
  function Calls(st: LimiterState, hour: int, increment: real, demoMax: int, k: nat): (r: (seq<bool>, LimiterState))
    ensures |r.0| == k
    decreases k
  {
    if k == 0 then ([], st)
    else
      var (v, st1) := Step(st, hour, increment, demoMax);
      var (rest, st2) := Calls(st1, hour, increment, demoMax, k - 1);
      ([v.allowed] + rest, st2)
  }

  /** One whole call against a positive quota: allowed while below it, and then counted. */
  lemma StepCounted(st: LimiterState, hour: int, m: int, u: nat)
    requires m >= 1 && Counted(st, hour, m, u)
    ensures var (v, st') := Step(st, hour, 1.0, m);
      && v.allowed == (u < m)
      && Counted(st', hour, m, if u < m then u + 1 else u)
  {
    var (v, st') := Step(st, hour, 1.0, m);
    if st.storePresent {
      if u < m {
        assert Stored(st') == Some(DemoRecord(hour, u as real + 1.0, m));
      }
    }
  }

  /** After `u` counted calls, call number `i` (from 0) of a run in the same hour is allowed iff `u + i < m`. */
  lemma {:induction false} CallsCounted(st: LimiterState, hour: int, m: int, u: nat, k: nat)
    requires m >= 1 && Counted(st, hour, m, u)
    ensures forall i :: 0 <= i < k ==> Calls(st, hour, 1.0, m, k).0[i] == (u + i < m)
    decreases k
  {
    if k > 0 {
      StepCounted(st, hour, m, u);
      var (v, st1) := Step(st, hour, 1.0, m);
      var u' := if u < m then u + 1 else u;
      CallsCounted(st1, hour, m, u', k - 1);
      var rest := Calls(st1, hour, 1.0, m, k - 1).0;
      assert Calls(st, hour, 1.0, m, k).0 == [v.allowed] + rest;
      forall i | 1 <= i < k
        ensures Calls(st, hour, 1.0, m, k).0[i] == (u + i < m)
      {
        assert rest[i - 1] == (u' + (i - 1) < m);
      }
    }
  }

  /**
   * The hourly quota: starting an hour with no record for it, a run of `k`
   * whole calls sees exactly the first `m` allowed and every later one denied.
   */
  lemma QuotaPerHour(st: LimiterState, hour: int, m: int, k: nat)
    requires m >= 1 && FreshFor(st, hour)
    ensures forall i :: 0 <= i < k ==> Calls(st, hour, 1.0, m, k).0[i] == (i < m)
  {
    assert Counted(st, hour, m, 0);
    CallsCounted(st, hour, m, 0, k);
  }

  /** Calls in one hour never create a record for another hour. */
  lemma {:induction false} CallsKeepOtherHoursFresh(st: LimiterState, hour: int, other: int, increment: real, m: int, k: nat)
    requires hour != other && FreshFor(st, other)
    ensures FreshFor(Calls(st, hour, increment, m, k).1, other)
    decreases k
  {
    if k > 0 {
      var (v, st1) := Step(st, hour, increment, m);
      assert FreshFor(st1, other);
      CallsKeepOtherHoursFresh(st1, hour, other, increment, m, k - 1);
    }
  }

  /** The first call in an hour without a record is allowed, whatever happened before. */
  lemma NewHourAllowed(st: LimiterState, hour: int, increment: real, m: int)
    requires m >= 1 && FreshFor(st, hour)
    ensures Step(st, hour, increment, m).0.allowed
  {
  }

  /**
   * With a quota of 3: calls 1 to 3 of an hour are allowed, call 4 is denied,
   * and a call in the next hour is allowed again.
   */
  lemma ThreePerHour(st: LimiterState, hour: int)
    requires FreshFor(st, hour) && FreshFor(st, hour + 1)
    ensures var (vs, st4) := Calls(st, hour, 1.0, 3, 4);
      && vs == [true, true, true, false]
      && Step(st4, hour + 1, 1.0, 3).0.allowed
  {
    QuotaPerHour(st, hour, 3, 4);
    var (vs, st4) := Calls(st, hour, 1.0, 3, 4);
    CallsKeepOtherHoursFresh(st, hour, hour + 1, 1.0, 3, 4);
    NewHourAllowed(st4, hour + 1, 1.0, 3);
  }
}
