/** Laws of the whole daemon, told in terms of what kernel and clock do alone. */
module DaemonTheorems {
  import opened Cron
  import opened DaemonSpec
  import opened Proxy
  import opened Timers

  // ---------- when cron runs ----------

  /** The wall clock of the last pass. */
  function LastWall(now: int, xs: seq<Input>): int {
    if xs == [] then now else xs[|xs| - 1].clock.wall
  }

  /** A deadline under a wall clock: one that was set back leaves its milliseconds. */
  function Held(due: int, wall: int, last: int): int {
    if wall < last then due % 1000 else due
  }

  /** The deadline of cron after some turns: a tick after the reading at the end of its last run. */
  function Schedule(now: int, start: Reading, xs: seq<Input>, hz: int): int
    requires hz > 0
  {
    if xs == [] then start.Total() + 1
    else
      var before, x := xs[..|xs| - 1], xs[|xs| - 1];
      var due := Held(Schedule(now, start, before, hz), x.clock.wall, LastWall(now, before));
      if due <= x.clock.visit.Total() then x.clock.after.Total() + 1000 / hz else due
  }

  /** One pass over cron's timer alone. */
  lemma CronMoves(s: State, c: TurnClock, hz: int)
    requires 1 <= hz <= 500 && OnlyCron(s)
    ensures var s', due := Pass(s, c.wall, CronVisits(c, hz)), Held(s.list[0].when.Total(), c.wall, s.lastTime);
            && s'.lastTime == c.wall && |s'.list| == 1
            && (CronDue(s, c) <==> due <= c.visit.Total())
            && s'.list[0].when.Total() == if CronDue(s, c) then c.after.Total() + 1000 / hz else due
  {
    TickBounds(hz);
    var env, u := CronVisits(c, hz), Unskewed(s, c.wall);
    assert Steps(u, env, 1) == Step(Steps(u, env, 0), env(0));
    MillisecondsStay(s.list[0].when);
    LexicographicIsTotal(c.visit, u.list[0].when);
  }

  lemma MillisecondsStay(t: Reading)
    ensures t.Total() % 1000 == t.ms
  {
  }

  /** Where the daemon stands after some turns. */
  ghost predicate OnSchedule(a: Whole, now: int, start: Reading, xs: seq<Input>, hz: int)
    requires hz > 0
  {
    && OnlyCron(a.s) && a.s.lastTime == LastWall(now, xs) && a.s.list[0].when.Total() == Schedule(now, start, xs, hz)
    && |a.ran| == |a.timeouts| == |xs|
  }

  /** In turn k cron ran if and only if its deadline had come, and the poll was given the time to it. */
  ghost predicate RanOnTime(a: Whole, now: int, start: Reading, xs: seq<Input>, hz: int, k: nat)
    requires hz > 0 && k < |xs| == |a.ran| == |a.timeouts|
  {
    var due := Schedule(now, start, xs[..k], hz);
    && (a.ran[k] <==> Held(due, xs[k].clock.wall, LastWall(now, xs[..k])) <= xs[k].clock.visit.Total())
    && a.timeouts[k] == if due <= xs[k].clock.poll.Total() then 0 else due - xs[k].clock.poll.Total()
  }

  /** What one iteration does to cron's timer and to the history of turns. */
  lemma NextCron(a: Whole, x: Input, hz: int, interval: int)
    requires Clamped(hz, interval) && OnlyCron(a.s)
    ensures var a' := Next(a, x, hz, interval);
            && OnlyCron(a'.s) && a'.s == Pass(a.s, x.clock.wall, CronVisits(x.clock, hz))
            && a'.ran == a.ran + [CronDue(a.s, x.clock)]
            && a'.timeouts == a.timeouts + [Timeout(a.s.list, x.clock.poll)]
  {
    hide OnlyCron, CronDue, Pass, TurnOf, Proxy.OneTurn, Timeout;
  }

  lemma ScheduleNext(now: int, start: Reading, xs: seq<Input>, x: Input, hz: int)
    requires hz > 0
    ensures var due := Held(Schedule(now, start, xs, hz), x.clock.wall, LastWall(now, xs));
            && Schedule(now, start, xs + [x], hz)
               == (if due <= x.clock.visit.Total() then x.clock.after.Total() + 1000 / hz else due)
            && LastWall(now, xs + [x]) == x.clock.wall
  {
    hide Held;
    assert (xs + [x])[..|xs|] == xs;
  }

  lemma NextOnSchedule(a: Whole, now: int, start: Reading, xs: seq<Input>, x: Input, hz: int, interval: int)
    requires Clamped(hz, interval) && OnSchedule(a, now, start, xs, hz)
    ensures var a' := Next(a, x, hz, interval);
            OnSchedule(a', now, start, xs + [x], hz) && RanOnTime(a', now, start, xs + [x], hz, |xs|)
  {
    hide Next, CronDue, Pass, Schedule, Held, LastWall;
    CronMoves(a.s, x.clock, hz);
    NextCron(a, x, hz, interval);
    ScheduleNext(now, start, xs, x, hz);
    assert (xs + [x])[..|xs|] == xs;
    EarliestOfOne(a.s.list);
  }

  lemma EarliestOfOne(list: seq<Timer>)
    requires |list| == 1
    ensures EarliestTotal(list) == list[0].when.Total()
  {
  }

  lemma TimeKept(a: Whole, b: Whole, now: int, start: Reading, xs: seq<Input>, x: Input, hz: int, k: nat)
    requires hz > 0 && k < |xs| == |a.ran| == |a.timeouts|
    requires |b.ran| == |b.timeouts| == |xs| + 1 && b.ran[..|xs|] == a.ran && b.timeouts[..|xs|] == a.timeouts
    ensures RanOnTime(b, now, start, xs + [x], hz, k) <==> RanOnTime(a, now, start, xs, hz, k)
  {
    assert (xs + [x])[..k] == xs[..k];
    assert b.ran[k] == b.ran[..|xs|][k] && b.timeouts[k] == b.timeouts[..|xs|][k];
  }

  lemma NextHistory(a: Whole, x: Input, hz: int, interval: int)
    requires Clamped(hz, interval) && OnlyCron(a.s)
    ensures var a' := Next(a, x, hz, interval);
            && |a'.ran| == |a.ran| + 1 && a'.ran[..|a.ran|] == a.ran
            && |a'.timeouts| == |a.timeouts| + 1 && a'.timeouts[..|a.timeouts|] == a.timeouts
            && (a'.steady <==> a.steady && Forward(a.clock, x.clock)) && a'.clock == x.clock.after
  {
    hide Pass, TurnOf, Proxy.OneTurn, Forward;
  }

  ghost predicate OnTime(a: Whole, now: int, start: Reading, xs: seq<Input>, hz: int)
    requires hz > 0
  {
    && OnSchedule(a, now, start, xs, hz)
    && forall k :: 0 <= k < |xs| ==> RanOnTime(a, now, start, xs, hz, k)
  }

  lemma NextOnTime(a: Whole, now: int, start: Reading, xs: seq<Input>, x: Input, hz: int, interval: int)
    requires Clamped(hz, interval) && OnTime(a, now, start, xs, hz)
    ensures OnlyCron(a.s) && OnTime(Next(a, x, hz, interval), now, start, xs + [x], hz)
  {
    hide Next, RanOnTime, Schedule, LastWall, OnlyCron;
    NextOnSchedule(a, now, start, xs, x, hz, interval);
    NextHistory(a, x, hz, interval);
    forall k | 0 <= k < |xs| ensures RanOnTime(Next(a, x, hz, interval), now, start, xs + [x], hz, k) {
      TimeKept(a, Next(a, x, hz, interval), now, start, xs, x, hz, k);
    }
  }

  /**
   Over every run from the start, whatever the clock does: cron runs in a turn if and only if its deadline has come by
   the visit, the deadline being a tick after the end of its last run, or one millisecond after the start, or what a
   clock set back has left of it; and every poll is given exactly the time to that deadline, or none.
   */
  lemma {:induction false} CronOnSchedule(w: World, now: int, start: Reading, xs: seq<Input>, hz: int, interval: int)
    requires Clamped(hz, interval)
    ensures OnTime(Driven(Begin(w, now, start), xs, hz, interval), now, start, xs, hz)
  {
    hide OnTime, Next, Begin, OnlyCron, Driven;
    BeginOnSchedule(w, now, start, hz, interval);
    if xs != [] {
      var less, x := xs[..|xs| - 1], xs[|xs| - 1];
      CronOnSchedule(w, now, start, less, hz, interval);
      NextOnTime(Driven(Begin(w, now, start), less, hz, interval), now, start, less, x, hz, interval);
      DrivenNext(Begin(w, now, start), less, x, hz, interval);
      assert less + [x] == xs;
    }
  }

  lemma BeginOnSchedule(w: World, now: int, start: Reading, hz: int, interval: int)
    requires Clamped(hz, interval)
    ensures Driven(Begin(w, now, start), [], hz, interval) == Begin(w, now, start)
    ensures OnTime(Begin(w, now, start), now, start, [], hz)
  {
    assert Begin(w, now, start).s.list == [Timer(0, 0, Deadline(start, 1))];
  }

  lemma DrivenNext(a: Whole, xs: seq<Input>, x: Input, hz: int, interval: int)
    requires Clamped(hz, interval) && OnlyCron(a.s)
    ensures Driven(a, xs + [x], hz, interval) == Next(Driven(a, xs, hz, interval), x, hz, interval)
  {
    hide Next;
    assert (xs + [x])[..|xs|] == xs;
  }

  /** From turn i to turn j no reading goes back, nor does the wall clock. */
  ghost predicate Onward(xs: seq<Input>, i: nat, j: nat)
    requires i <= j < |xs|
  {
    forall k :: i < k <= j ==>
      && xs[k - 1].clock.after.Total() <= xs[k].clock.visit.Total() <= xs[k].clock.after.Total()
      && xs[k - 1].clock.wall <= xs[k].clock.wall
  }

  lemma {:induction false} StillAhead(now: int, start: Reading, xs: seq<Input>, hz: int, i: nat, j: nat)
    requires 1 <= hz <= 500 && i < j < |xs| && Onward(xs, i, j)
    requires Held(Schedule(now, start, xs[..i], hz), xs[i].clock.wall, LastWall(now, xs[..i]))
               <= xs[i].clock.visit.Total()
    ensures Schedule(now, start, xs[..j], hz) >= xs[i].clock.after.Total() + 1000 / hz
    ensures xs[i].clock.after.Total() <= xs[j].clock.visit.Total()
    decreases j
  {
    hide Held, Schedule, LastWall;
    assert xs[..j] == xs[..j - 1] + [xs[j - 1]];
    ScheduleNext(now, start, xs[..j - 1], xs[j - 1], hz);
    if i < j - 1 {
      StillAhead(now, start, xs, hz, i, j - 1);
      assert xs[j - 1].clock.visit.Total() <= xs[j - 1].clock.after.Total();
      LastWallIs(now, xs, j - 1);
      HeldForward(Schedule(now, start, xs[..j - 1], hz), xs[j - 1].clock.wall, LastWall(now, xs[..j - 1]));
    }
  }

  lemma LastWallIs(now: int, xs: seq<Input>, k: nat)
    requires 0 < k < |xs|
    ensures LastWall(now, xs[..k]) == xs[k - 1].clock.wall
  {
  }

  lemma HeldForward(due: int, wall: int, last: int)
    requires last <= wall
    ensures Held(due, wall, last) == due
  {
  }

  /** While no clock goes back, two runs of cron are at least a tick apart. */
  lemma RunsApart(w: World, now: int, start: Reading, xs: seq<Input>, hz: int, interval: int, i: nat, j: nat)
    requires Clamped(hz, interval) && i < j < |xs| && Onward(xs, i, j)
    ensures var a := Driven(Begin(w, now, start), xs, hz, interval);
            && |a.ran| == |xs|
            && (a.ran[i] && a.ran[j] ==> xs[j].clock.visit.Total() >= xs[i].clock.after.Total() + 1000 / hz)
  {
    hide Driven, Begin, Schedule, Held;
    CronOnSchedule(w, now, start, xs, hz, interval);
    var a := Driven(Begin(w, now, start), xs, hz, interval);
    assert RanOnTime(a, now, start, xs, hz, i) && RanOnTime(a, now, start, xs, hz, j);
    if a.ran[i] && a.ran[j] {
      StillAhead(now, start, xs, hz, i, j);
      assert xs[j - 1].clock.wall <= xs[j].clock.wall && LastWall(now, xs[..j]) == xs[j - 1].clock.wall;
      HeldForward(Schedule(now, start, xs[..j], hz), xs[j].clock.wall, LastWall(now, xs[..j]));
    }
  }

  /** The last reading before turn k. */
  function ReadBefore(start: Reading, xs: seq<Input>, k: nat): Reading
    requires k <= |xs|
  {
    if k == 0 then start else xs[k - 1].clock.after
  }

  ghost predicate NeverBack(start: Reading, xs: seq<Input>) {
    && start.sec >= 1
    && forall k {:trigger xs[k]} :: 0 <= k < |xs| ==>
         var c := xs[k].clock;
         ReadBefore(start, xs, k).Total() <= c.poll.Total() <= c.visit.Total() <= c.after.Total()
  }

  lemma NeverBackNext(start: Reading, xs: seq<Input>, x: Input)
    ensures NeverBack(start, xs + [x]) <==> NeverBack(start, xs) && Forward(ReadBefore(start, xs, |xs|), x.clock)
    ensures ReadBefore(start, xs + [x], |xs| + 1) == x.clock.after
  {
    var all := xs + [x];
    forall k | 0 <= k <= |xs| ensures ReadBefore(start, all, k) == ReadBefore(start, xs, k) {
    }
    if NeverBack(start, all) {
      assert all[|xs|] == x;
      assert forall k :: 0 <= k < |xs| ==> xs[k] == all[k];
    }
  }

  /** The clock counts as steady if and only if it was past the epoch at the start and no reading went back. */
  lemma {:induction false} SteadyExactly(w: World, now: int, start: Reading, xs: seq<Input>, hz: int, interval: int)
    requires Clamped(hz, interval)
    ensures var a := Driven(Begin(w, now, start), xs, hz, interval);
            a.clock == ReadBefore(start, xs, |xs|) && (a.steady <==> NeverBack(start, xs))
  {
    if xs != [] {
      hide Next, NeverBack, Begin, Driven;
      var n, less := |xs| - 1, xs[..|xs| - 1];
      SteadyExactly(w, now, start, less, hz, interval);
      NextHistory(Driven(Begin(w, now, start), less, hz, interval), xs[n], hz, interval);
      NeverBackNext(start, less, xs[n]);
      DrivenNext(Begin(w, now, start), less, xs[n], hz, interval);
      assert less + [xs[n]] == xs;
    }
  }
}
