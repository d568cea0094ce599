/** The cron callback of src/server.c with the period macro and the configuration bounds of src/server.h. */
module Cron {
  import opened Timers

  const MIN_HZ := 1
  const MAX_HZ := 500
  const MIN_RECONNECT_INTERVAL_MS := 1000
  const MAX_RECONNECT_INTERVAL_MS := 3600000

  /** Values the configuration can leave behind, its defaults included. */
  predicate Clamped(hz: int, interval: int) {
    MIN_HZ <= hz <= MAX_HZ && MIN_RECONNECT_INTERVAL_MS <= interval <= MAX_RECONNECT_INTERVAL_MS
  }

  /** The milliseconds between two runs of cron. */
  function Tick(hz: int): int
    requires hz > 0
  {
    1000 / hz
  }

  /** The condition of run_with_period; the callers have to keep it from dividing by zero. */
  predicate PeriodReached(ms: int, hz: int, cronloops: nat)
    requires hz > 0 && (ms > Tick(hz) ==> Tick(hz) > 0 && ms / Tick(hz) > 0)
  {
    ms <= Tick(hz) || cronloops % (ms / Tick(hz)) == 0
  }

  class CronServer {
    var hz: int
    var reconnectInterval: int
    var cronloops: nat
    var shutdown: bool
    var stop: bool
    // The values of cronloops at which the devices were reconnected.
    ghost var reconnects: seq<nat>

    predicate Valid()
      reads this
    {
      Clamped(hz, reconnectInterval)
    }

    constructor ()
      ensures Valid() && hz == 10 && reconnectInterval == 5000 && cronloops == 0 && !shutdown && !stop
      ensures reconnects == []
    {
      hz, reconnectInterval, cronloops, shutdown, stop := 10, 5000, 0, false, false;
      reconnects := [];
    }

    /** The hz setting. */
    method SetHz(value: int)
      requires Valid()
      modifies this`hz
      ensures Valid() && 1 <= hz <= 500
      ensures 1 <= value <= 500 ==> hz == value
      ensures value < 1 ==> hz == 1
      ensures value > 500 ==> hz == 500
    {
      hz := value;
      if hz < MIN_HZ { hz := MIN_HZ; }
      if hz > MAX_HZ { hz := MAX_HZ; }
    }

    /** The reconnect-interval setting. */
    method SetReconnectInterval(value: int)
      requires Valid()
      modifies this`reconnectInterval
      ensures Valid() && 1000 <= reconnectInterval <= 3600000
      ensures 1000 <= value <= 3600000 ==> reconnectInterval == value
      ensures value < 1000 ==> reconnectInterval == 1000
      ensures value > 3600000 ==> reconnectInterval == 3600000
    {
      reconnectInterval := value;
      if reconnectInterval < MIN_RECONNECT_INTERVAL_MS {
        reconnectInterval := MIN_RECONNECT_INTERVAL_MS;
      }
      if reconnectInterval > MAX_RECONNECT_INTERVAL_MS {
        reconnectInterval := MAX_RECONNECT_INTERVAL_MS;
      }
    }

    /**
     serverCron: always asks to be called again; a shutdown request stops the loop but does not skip the work. Whether
     it calls serialCron is the second result.
     */
    method ServerCron() returns (again: nat, reconnect: bool)
      requires Valid()
      modifies this`cronloops, this`stop, this`reconnects
      ensures Valid() && again == Tick(hz) && 2 <= again <= 1000
      ensures again * hz <= 1000 < (again + 1) * hz
      ensures cronloops == old(cronloops) + 1 && stop == (old(stop) || shutdown)
      ensures reconnect <==> reconnectInterval <= Tick(hz) || old(cronloops) % (reconnectInterval / Tick(hz)) == 0
      ensures reconnects == old(reconnects) + if reconnect then [old(cronloops)] else []
    {
      TickBounds(hz);
      TickRounds(hz);
      if shutdown {
        stop := true;
      }
      PeriodDefined(hz, reconnectInterval);
      reconnect := PeriodReached(reconnectInterval, hz, cronloops);
      if reconnect {
        reconnects := reconnects + [cronloops];
      }
      cronloops := cronloops + 1;
      again := 1000 / hz;
    }

    /** Any number of runs of cron. */
    method RunCron(n: nat)
      requires Valid() && cronloops == 0 && reconnects == []
      modifies this`cronloops, this`stop, this`reconnects
      ensures Valid() && cronloops == n
      ensures reconnects == Ticks(n, reconnectInterval, hz)
    {
      for i := 0 to n
        invariant Valid() && cronloops == i && reconnects == Ticks(i, reconnectInterval, hz)
      {
        PeriodDefined(hz, reconnectInterval);
        var _, _ := ServerCron();
      }
    }
  }

  lemma TickBounds(hz: int)
    requires MIN_HZ <= hz <= MAX_HZ
    ensures 2 <= Tick(hz) <= 1000
  {
  }

  /** A tick is the longest whole number of milliseconds of which hz fit in a second. */
  lemma TickRounds(hz: int)
    requires MIN_HZ <= hz <= MAX_HZ
    ensures Tick(hz) * hz <= 1000 < (Tick(hz) + 1) * hz
  {
  }

  /** For clamped settings the period test divides by no zero. */
  lemma PeriodDefined(hz: int, interval: int)
    requires Clamped(hz, interval)
    ensures Tick(hz) > 0
    ensures interval > Tick(hz) ==> interval / Tick(hz) >= 1
    ensures interval > Tick(hz) ==>
              var p := interval / Tick(hz); p * Tick(hz) <= interval < (p + 1) * Tick(hz)
  {
  }

  /** The ticks below n at which the devices are reconnected. */
  function Ticks(n: nat, interval: int, hz: int): (ts: seq<nat>)
    requires Clamped(hz, interval)
  {
    PeriodDefined(hz, interval);
    if n == 0 then []
    else Ticks(n - 1, interval, hz) + if PeriodReached(interval, hz, n - 1) then [n - 1] else []
  }

  /**
   Reconnection runs at tick 0 and then on every tick if the interval is at most one tick, else every P ticks, where
   P ticks are the longest whole number of ticks that fit in the interval.
   */
  lemma {:induction false} TicksExact(n: nat, interval: int, hz: int)
    requires Clamped(hz, interval)
    ensures var p := if interval <= Tick(hz) then 1 else interval / Tick(hz);
            && p >= 1
            && |Ticks(n, interval, hz)| == (n + p - 1) / p
            && (forall i :: 0 <= i < |Ticks(n, interval, hz)| ==> Ticks(n, interval, hz)[i] == i * p)
            && (interval > Tick(hz) ==> p * Tick(hz) <= interval < (p + 1) * Tick(hz))
  {
    PeriodDefined(hz, interval);
    var p := if interval <= Tick(hz) then 1 else interval / Tick(hz);
    if n == 0 {
      assert (p - 1) / p == 0;
    } else {
      TicksExact(n - 1, interval, hz);
      Rounding(n - 1, p);
    }
  }

  /** Rounding n / p up changes exactly after a multiple of p. */
  lemma Rounding(n: nat, p: nat)
    requires p >= 1
    ensures (n + p) / p == (n + p - 1) / p + if n % p == 0 then 1 else 0
    ensures n % p == 0 ==> (n + p - 1) / p * p == n
  {
    var q, r := n / p, n % p;
    assert n == q * p + r;
    Quotient(n + p, q + 1, r, p);
    if r == 0 {
      Quotient(n + p - 1, q, p - 1, p);
    } else {
      Quotient(n + p - 1, q + 1, r - 1, p);
    }
  }

  lemma Quotient(n: int, q: int, r: int, p: int)
    requires 0 <= r < p && n == q * p + r
    ensures n / p == q
  {
    var d := n / p - q;
    assert n == (n / p) * p + n % p;
    assert d * p == r - n % p;
    assert d >= 1 ==> d * p >= p;
    assert d <= -1 ==> d * p <= -p;
  }

  // ---------- the cron timer in the event loop ----------

  /** The clock readings of one turn: at the poll, time(NULL) in the pass, at the visit, and when rescheduled. */
  datatype TurnClock = TurnClock(poll: Reading, wall: int, visit: Reading, after: Reading)

  /** The state after some turns, and the timeouts that were handed to the polls. */
  datatype CronRun = CronRun(s: State, timeouts: seq<int>)

  /** What a pass meets when cron is the only callback: it touches no timer and is called again after a tick. */
  function CronVisits(c: TurnClock, hz: int): nat -> Visit
    requires hz > 0
  {
    _ => Visit(c.visit, [], Again(Tick(hz), c.after))
  }

  function CronTurn(r: CronRun, c: TurnClock, hz: int): CronRun
    requires hz > 0 && r.s.pos == 0 && r.s.list != []
  {
    CronRun(Pass(r.s, c.wall, CronVisits(c, hz)),
            r.timeouts + [Timeout(r.s.list, c.poll)])
  }

  /** A clock that does not go back between readings and is past the first second of the epoch. */
  ghost predicate Nondecreasing(start: Reading, cs: seq<TurnClock>) {
    && start.sec >= 1
    && (forall i {:trigger cs[i]} :: 0 <= i < |cs| ==>
          && LastReading(start, cs, i).Total() <= cs[i].poll.Total()
          && cs[i].poll.Total() <= cs[i].visit.Total() <= cs[i].after.Total())
  }

  function LastReading(start: Reading, cs: seq<TurnClock>, k: nat): Reading
    requires k <= |cs|
  {
    if k == 0 then start else cs[k - 1].after
  }

  /** The list holds the cron timer alone, at most one tick ahead of the clock. */
  ghost predicate CronAlone(s: State, clock: Reading, tick: int) {
    && s.pos == 0 && |s.list| == 1 && s.list[0].id == s.list[0].birth
    && s.list[0].when.Total() <= clock.Total() + tick
  }

  lemma CronTurnKeeps(r: CronRun, clock: Reading, c: TurnClock, hz: int)
    requires MIN_HZ <= hz <= MAX_HZ && CronAlone(r.s, clock, Tick(hz)) && clock.sec >= 1
    requires clock.Total() <= c.poll.Total() <= c.visit.Total() <= c.after.Total()
    ensures CronAlone(CronTurn(r, c, hz).s, c.after, Tick(hz))
    ensures CronTurn(r, c, hz).timeouts[|r.timeouts|] <= Tick(hz)
  {
    TickBounds(hz);
    var env := CronVisits(c, hz);
    var u := Unskewed(r.s, c.wall);
    assert Steps(u, env, 1) == Step(Steps(u, env, 0), env(0));
    EarliestIsLeast(r.s.list);
    LexicographicIsTotal(c.visit, u.list[0].when);
  }

  function CronTurns(r: CronRun, cs: seq<TurnClock>, hz: int): (r': CronRun)
    requires MIN_HZ <= hz <= MAX_HZ && r.s.pos == 0 && |r.s.list| == 1 && r.s.list[0].id == r.s.list[0].birth
    ensures r'.s.pos == 0 && |r'.s.list| == 1 && r'.s.list[0].id == r'.s.list[0].birth
  {
    if cs == [] then r
    else
      var r1 := CronTurns(r, cs[..|cs| - 1], hz);
      OneTimerStays(r1.s, cs[|cs| - 1], hz);
      CronTurn(r1, cs[|cs| - 1], hz)
  }

  lemma OneTimerStays(s: State, c: TurnClock, hz: int)
    requires MIN_HZ <= hz <= MAX_HZ && s.pos == 0 && |s.list| == 1 && s.list[0].id == s.list[0].birth
    ensures var s' := Pass(s, c.wall, CronVisits(c, hz));
            |s'.list| == 1 && s'.list[0].id == s'.list[0].birth
  {
    TickBounds(hz);
    var env := CronVisits(c, hz);
    var u := Unskewed(s, c.wall);
    assert Steps(u, env, 1) == Step(Steps(u, env, 0), env(0));
  }

  /**
   Over every run under a clock that does not go back, no poll is asked to sleep longer than one tick, since cron
   never gives its timer up and is rescheduled one tick ahead.
   */
  lemma {:induction false} TimeoutsWithinTick(start: Reading, now: int, cs: seq<TurnClock>, hz: int)
    requires MIN_HZ <= hz <= MAX_HZ && Nondecreasing(start, cs)
    ensures var s := Added(State([], 0, 0, now, []), 1, start).(pos := 0);
            var r := CronTurns(CronRun(s, []), cs, hz);
            && |r.timeouts| == |cs|
            && (forall i :: 0 <= i < |cs| ==> 0 <= r.timeouts[i] <= Tick(hz))
            && CronAlone(r.s, LastReading(start, cs, |cs|), Tick(hz))
  {
    TickBounds(hz);
    var s := Added(State([], 0, 0, now, []), 1, start).(pos := 0);
    if cs != [] {
      var prefix, c := cs[..|cs| - 1], cs[|cs| - 1];
      forall i | 0 <= i < |prefix|
        ensures LastReading(start, prefix, i) == LastReading(start, cs, i) && prefix[i] == cs[i]
      {
      }
      TimeoutsWithinTick(start, now, prefix, hz);
      ClockGrows(start, cs, |cs| - 1);
      CronTurnKeeps(CronTurns(CronRun(s, []), prefix, hz), LastReading(start, cs, |cs| - 1), c, hz);
    }
  }

  lemma {:induction false} ClockGrows(start: Reading, cs: seq<TurnClock>, k: nat)
    requires Nondecreasing(start, cs) && k <= |cs|
    ensures start.Total() <= LastReading(start, cs, k).Total() && LastReading(start, cs, k).sec >= 1
  {
    if k > 0 {
      ClockGrows(start, cs, k - 1);
      assert cs[k - 1].poll.Total() <= cs[k - 1].after.Total();
    }
  }
}
