/** Interval timers: `struct timespec` arithmetic and one pass of the timer thread's loop. */
module Timers {
  const BILLION: int := 1_000_000_000
  const DELAYTIMER_MAX: int := 0x7fff_ffff

  datatype Timespec = Timespec(sec: int, nsec: int)

  predicate Normal(t: Timespec) {
    0 <= t.nsec < BILLION
  }

  /** The time in nanoseconds. */
  function Nanos(t: Timespec): int {
    t.sec * BILLION + t.nsec
  }

  /** `timespec_add`. */
  function Add(a: Timespec, b: Timespec): (r: Timespec)
    ensures Nanos(r) == Nanos(a) + Nanos(b)
    ensures Normal(a) && Normal(b) ==> Normal(r)
  {
    if a.nsec + b.nsec >= BILLION then Timespec(a.sec + b.sec + 1, a.nsec + b.nsec - BILLION)
    else Timespec(a.sec + b.sec, a.nsec + b.nsec)
  }

  /** `timespec_sub`. */
  function Sub(a: Timespec, b: Timespec): (r: Timespec)
    ensures Nanos(r) == Nanos(a) - Nanos(b)
    ensures Normal(a) && Normal(b) ==> Normal(r)
  {
    if a.nsec - b.nsec < 0 then Timespec(a.sec - b.sec - 1, a.nsec - b.nsec + BILLION)
    else Timespec(a.sec - b.sec, a.nsec - b.nsec)
  }

  const ZERO := Timespec(0, 0)

  /** `timespec_cmp`. */
  function Cmp(a: Timespec, b: Timespec): (r: int)
    ensures Normal(a) && Normal(b) ==> (r < 0 <==> Nanos(a) < Nanos(b)) && (r > 0 <==> Nanos(a) > Nanos(b))
    ensures r == 0 <==> a == b
  {
    if a.sec < b.sec then -1 else if a.sec > b.sec then 1
    else if a.nsec < b.nsec then -1 else if a.nsec > b.nsec then 1 else 0
  }

  function Min(a: int, b: int): int {
    if a <= b then a else b
  }

  /** The least number of periods, at least one, after which `e` is no longer before `now`. */
  ghost predicate Least(e: int, p: int, now: int, k: int) {
    k >= 1 && e + k * p >= now && forall j | 1 <= j < k :: e + j * p < now
  }

  lemma {:induction false} LeastIsUnique(e: int, p: int, now: int, k: int, l: int)
    requires Least(e, p, now, k) && Least(e, p, now, l)
    ensures k == l
  {
    assert k < l ==> e + k * p < now;
    assert l < k ==> e + l * p < now;
  }

  lemma {:induction false} Earlier(e: int, p: int, now: int, k: int, j: int)
    requires p > 0 && e + k * p < now && j <= k
    ensures e + j * p < now
    decreases k - j
  {
    if j < k {
      Earlier(e, p, now, k, j + 1);
      assert (j + 1) * p == j * p + p;
    }
  }

  datatype Wait = TimedOut | Signalled

  class Timer {
    var expires: Timespec
    var period: Timespec
    var overruns: int
    var stopped: bool

    /** What `timer_settime` and the thread keep: normalised times, no negative period, and a clear count between callbacks. */
    predicate Valid()
      reads this
    {
      Normal(expires) && Normal(period) && period.sec >= 0 && overruns == 0
    }

    /** The catch-up loop: advances by whole periods until `now` is not behind, then takes the last step back. */
    method CatchUp(now: Timespec) returns (e: Timespec, ghost k: int)
      requires Valid() && Normal(now) && period != ZERO && Cmp(expires, now) <= 0
      modifies this`overruns
      ensures Normal(e) && Least(Nanos(expires), Nanos(period), Nanos(now), k)
      ensures Nanos(e) == Nanos(expires) + k * Nanos(period) - Nanos(period)
      ensures overruns == Min(k, DELAYTIMER_MAX)
    {
      ghost var e0, p, n := Nanos(expires), Nanos(period), Nanos(now);
      assert p > 0;
      e := Add(expires, period);
      overruns := overruns + 1;
      k := 1;
      assert k * p == p;
      while Cmp(e, now) < 0
        invariant Normal(e) && k >= 1 && Nanos(e) == e0 + k * p && overruns == Min(k, DELAYTIMER_MAX)
        invariant forall j | 1 <= j < k :: e0 + j * p < n
        decreases n - Nanos(e)
      {
        forall j | 1 <= j < k + 1
          ensures e0 + j * p < n
        {
          Earlier(e0, p, n, k, j);
        }
        assert (k + 1) * p == k * p + p;
        e := Add(e, period);
        if overruns < DELAYTIMER_MAX {
          overruns := overruns + 1;
        }
        k := k + 1;
      }
      e := Sub(e, period);
    }

    /**
     * One pass of the thread's loop at time `now`; `wait` is how a wait would end. `fired` says whether the
     * callback ran, and `seen` is the overrun count it could read.
     */
    method Pass(now: Timespec, wait: Wait) returns (fired: bool, seen: int, ghost k: int)
      requires Valid() && Normal(now)
      modifies this
      ensures Valid() && period == old(period) && stopped == old(stopped)
      ensures fired <==> !stopped && old(expires) != ZERO && (Nanos(old(expires)) <= Nanos(now) || wait == TimedOut)
      ensures !fired ==> expires == old(expires) && k == 0
      ensures fired && period == ZERO ==> expires == ZERO
      ensures fired && period != ZERO ==> k >= 1 && Nanos(expires) == Nanos(old(expires)) + k * Nanos(period)
      ensures fired && period != ZERO && Nanos(old(expires)) <= Nanos(now) ==>
                && Least(Nanos(old(expires)), Nanos(period), Nanos(now), k)
                && seen == Min(k, DELAYTIMER_MAX)
      ensures fired && period == ZERO && Nanos(old(expires)) <= Nanos(now) ==> seen == 1 && k == 1
      ensures fired && Nanos(old(expires)) > Nanos(now) ==> seen == 0 && k == 1
    {
      fired, seen, k := false, 0, 0;
      var e := expires;
      if stopped || e == ZERO {
        return;
      }
      if Cmp(e, now) > 0 {
        if wait != TimedOut {
          return;
        }
        k := 1;
      } else if period != ZERO {
        e, k := CatchUp(now);
      } else {
        overruns, k := 1, 1;
      }
      if period != ZERO {
        e := Add(e, period);
        assert 1 * Nanos(period) == Nanos(period);
      } else {
        e := ZERO;
      }
      expires := e;
      fired, seen := true, overruns;
      overruns := 0;
    }
  }

  /** Whether the callback ran in a pass, and the overrun count it could read. */
  datatype Call = Quiet | Called(overruns: int)

  /** What a pass at `now` does to the expiry `x` of a timer that is not stopped; `k` is by how many periods it moves. */
  ghost predicate Passed(period: Timespec, now: Timespec, wait: Wait, x: Timespec, y: Timespec, call: Call, k: int) {
    if x == ZERO || (Nanos(x) > Nanos(now) && wait != TimedOut) then
      call == Quiet && y == x && k == 0
    else
      && call.Called?
      && (if Nanos(x) > Nanos(now) then k == 1 && call.overruns == 0
          else if period == ZERO then k == 1 && call.overruns == 1
          else Least(Nanos(x), Nanos(period), Nanos(now), k) && call.overruns == Min(k, DELAYTIMER_MAX))
      && (if period == ZERO then y == ZERO else k >= 1 && Nanos(y) == Nanos(x) + k * Nanos(period))
  }

  ghost predicate PassedAt(period: Timespec, times: seq<Timespec>, waits: seq<Wait>, expiries: seq<Timespec>, calls: seq<Call>,
                           ks: seq<int>, i: nat)
  {
    i < |times| && i < |waits| && i + 1 < |expiries| && i < |calls| && i < |ks| ==>
      Passed(period, times[i], waits[i], expiries[i], expiries[i + 1], calls[i], ks[i])
  }

  lemma {:induction false} PassedStep(period: Timespec, times: seq<Timespec>, waits: seq<Wait>, expiries: seq<Timespec>,
                                      calls: seq<Call>, ks: seq<int>, y: Timespec, call: Call, k: int)
    requires |expiries| == |calls| + 1 && |ks| == |calls| < |times| == |waits|
    requires Passed(period, times[|calls|], waits[|calls|], expiries[|calls|], y, call, k)
    requires forall i: nat {:trigger PassedAt(period, times, waits, expiries, calls, ks, i)} ::
               PassedAt(period, times, waits, expiries, calls, ks, i)
    ensures var expiries', calls', ks' := expiries + [y], calls + [call], ks + [k];
            forall i: nat {:trigger PassedAt(period, times, waits, expiries', calls', ks', i)} ::
              PassedAt(period, times, waits, expiries', calls', ks', i)
  {
    ghost var expiries', calls', ks' := expiries + [y], calls + [call], ks + [k];
    forall i: nat
      ensures PassedAt(period, times, waits, expiries', calls', ks', i)
    {
      assert PassedAt(period, times, waits, expiries, calls, ks, i);
    }
  }

  /** How often the callback ran. */
  function Fires(calls: seq<Call>): nat
    decreases |calls|
  {
    if calls == [] then 0 else Fires(calls[..|calls| - 1]) + if calls[|calls| - 1].Called? then 1 else 0
  }

  lemma {:induction false} FiresNext(calls: seq<Call>, call: Call)
    ensures Fires(calls + [call]) == Fires(calls) + if call.Called? then 1 else 0
  {
    assert (calls + [call])[..|calls|] == calls;
  }

  /**
   * Over any passes of a timer that is not stopped: what each pass does; a periodic timer's expiry moves by whole periods,
   * at least one for each callback, and a timer without a period has its callback at most once.
   */
  method Passes(t: Timer, times: seq<Timespec>, waits: seq<Wait>)
    returns (calls: seq<Call>, ghost expiries: seq<Timespec>, ghost ks: seq<int>, ghost periods: int)
    requires t.Valid() && !t.stopped && |times| == |waits| && forall i | 0 <= i < |times| :: Normal(times[i])
    modifies t
    ensures t.Valid() && t.period == old(t.period)
    ensures |calls| == |ks| == |times| && |expiries| == |times| + 1 && expiries[0] == old(t.expires) && expiries[|times|] == t.expires
    ensures forall i: nat {:trigger PassedAt(t.period, times, waits, expiries, calls, ks, i)} ::
              PassedAt(t.period, times, waits, expiries, calls, ks, i)
    ensures periods >= Fires(calls) && (t.period != ZERO ==> Nanos(t.expires) == Nanos(old(t.expires)) + periods * Nanos(t.period))
    ensures t.period == ZERO ==> Fires(calls) <= 1 && (Fires(calls) == 1 ==> t.expires == ZERO)
  {
    calls, expiries, ks, periods := [], [t.expires], [], 0;
    ghost var p, e0 := Nanos(t.period), Nanos(t.expires);
    for i := 0 to |times|
      invariant t.Valid() && t.period == old(t.period) && !t.stopped
      invariant |calls| == |ks| == i && |expiries| == i + 1 && expiries[0] == old(t.expires) && expiries[i] == t.expires
      invariant forall j: nat {:trigger PassedAt(t.period, times, waits, expiries, calls, ks, j)} ::
                  PassedAt(t.period, times, waits, expiries, calls, ks, j)
      invariant periods >= Fires(calls) && (t.period != ZERO ==> Nanos(t.expires) == e0 + periods * p)
      invariant t.period == ZERO ==> Fires(calls) <= 1 && (Fires(calls) == 1 ==> t.expires == ZERO)
    {
      var fired, seen;
      ghost var k;
      fired, seen, k := t.Pass(times[i], waits[i]);
      var call := if fired then Called(seen) else Quiet;
      PassedStep(t.period, times, waits, expiries, calls, ks, t.expires, call, k);
      FiresNext(calls, call);
      assert (periods + k) * p == periods * p + k * p;
      calls, expiries, ks, periods := calls + [call], expiries + [t.expires], ks + [k], periods + k;
    }
  }
}
