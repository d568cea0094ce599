/** The whole daemon as a state machine: data plane, timers and cron, driven by what kernel, clock and signals do. */
module DaemonSpec {
  import opened Cron
  import opened EventTable
  import opened Masks
  import opened Options
  import opened Proxy
  import opened Timers
  import DT = DeliveryTheorems
  import TT = TimerTheorems

  /** What happens around one iteration of the main loop; a signal asks for shutdown. */
  datatype Input = Input(clock: TurnClock, returned: seq<KernelEvent>, io: IO, kernel: Id -> Connection, signal: bool)

  datatype Whole = Whole(
    w: World, s: State, loops: nat, shutdown: bool, stop: bool,
    // For each turn so far: what it was, whether cron ran in it, and what its poll was given to wait.
    turns: seq<Turn>, ran: seq<bool>, timeouts: seq<int>,
    // The last clock reading, and whether the clock has never gone back.
    clock: Reading, steady: bool)

  /** The timer list of the daemon between turns: cron alone, not deleted. */
  ghost predicate OnlyCron(s: State) {
    s.pos == 0 && |s.list| == 1 && s.list[0].id == s.list[0].birth
  }

  /** The tick with the given number reconnects: every tick, or every P-th. */
  predicate ReconnectTick(n: nat, interval: int, hz: int)
    requires Clamped(hz, interval)
  {
    PeriodDefined(hz, interval);
    PeriodReached(interval, hz, n)
  }

  /** Cron runs in a pass exactly when its deadline, moved to the epoch if the clock was set back, has come. */
  function CronDue(s: State, c: TurnClock): bool
    requires s.list != []
  {
    Due(c.visit, Unskewed(s, c.wall).list[0].when)
  }

  lemma CronPass(s: State, c: TurnClock, hz: int)
    requires MIN_HZ <= hz <= MAX_HZ && OnlyCron(s)
    ensures var s' := Pass(s, c.wall, CronVisits(c, hz));
            && OnlyCron(s') && s'.list[0].id == s.list[0].id
            && |TT.FiredIn(s'.log)| == |TT.FiredIn(s.log)| + if CronDue(s, c) then 1 else 0
  {
    TickBounds(hz);
    var env, u := CronVisits(c, hz), Unskewed(s, c.wall);
    assert Steps(u, env, 1) == Step(Steps(u, env, 0), env(0));
    OneTimerStays(s, c, hz);
    TT.StepLogs(u, env(0));
  }

  // ---------- the kernel, by descriptors ----------

  ghost predicate Holds(w: World, id: Id, fd: nat) {
    id in w.links && w.links[id].fd == fd && w.links[id].registered && Exists(w.topo, id)
  }

  /** The device registered under a descriptor. */
  ghost function Holder(w: World, fd: nat): Id {
    if exists id :: Holds(w, id, fd) then
      var id :| Holds(w, id, fd);
      id
    else Master(0)
  }

  lemma HolderIs(w: World, id: Id)
    requires WellFormed(w) && id in w.links && w.links[id].registered
    ensures Holder(w, w.links[id].fd) == id && Holds(w, id, w.links[id].fd)
  {
    assert Holds(w, id, w.links[id].fd);
  }

  /** What epoll is asked to watch: the flags of every registered device. */
  ghost function Watched(w: World): (watched: map<nat, Interest>)
    ensures forall fd :: fd in watched <==> exists id :: Holds(w, id, fd)
  {
    var fds := set id | id in w.links && Holds(w, id, w.links[id].fd) :: w.links[id].fd;
    assert forall fd :: (exists id :: Holds(w, id, fd)) ==> fd in fds;
    map fd | fd in fds :: ToInterest(Flags(w.topo, Holder(w, fd)))
  }

  /** The fired array, by devices. */
  ghost function Entries(w: World, returned: seq<KernelEvent>): seq<Entry> {
    seq(|returned|, i requires 0 <= i < |returned| => Entry(Holder(w, returned[i].fd), FiredOf(returned[i]).mask))
  }

  // ---------- runs ----------

  ghost function TurnOf(a: Whole, x: Input, hz: int, interval: int): Turn
    requires Clamped(hz, interval) && OnlyCron(a.s)
  {
    Turn(Entries(a.w, x.returned), x.io,
         if CronDue(a.s, x.clock) && ReconnectTick(a.loops, interval, hz) then Some(x.kernel) else None)
  }

  predicate Forward(clock: Reading, c: TurnClock) {
    clock.Total() <= c.poll.Total() <= c.visit.Total() <= c.after.Total()
  }

  /** One iteration of aeMain. */
  ghost function Next(a: Whole, x: Input, hz: int, interval: int): (a': Whole)
    requires Clamped(hz, interval) && OnlyCron(a.s)
    ensures OnlyCron(a'.s) && a'.s.list[0].id == a.s.list[0].id
  {
    CronPass(a.s, x.clock, hz);
    var due, t, shutdown := CronDue(a.s, x.clock), TurnOf(a, x, hz, interval), a.shutdown || x.signal;
    Whole(Proxy.OneTurn(a.w, t), Pass(a.s, x.clock.wall, CronVisits(x.clock, hz)), a.loops + (if due then 1 else 0),
          shutdown, a.stop || (due && shutdown),
          a.turns + [t], a.ran + [due], a.timeouts + [Timeout(a.s.list, x.clock.poll)],
          x.clock.after, a.steady && Forward(a.clock, x.clock))
  }

  ghost function Driven(a: Whole, xs: seq<Input>, hz: int, interval: int): (a': Whole)
    requires Clamped(hz, interval) && OnlyCron(a.s)
    ensures OnlyCron(a'.s) && a'.s.list[0].id == a.s.list[0].id
  {
    if xs == [] then a else Next(Driven(a, xs[..|xs| - 1], hz, interval), xs[|xs| - 1], hz, interval)
  }

  /** The loop is in state b after n of these iterations, none of which found it stopped. */
  ghost predicate Reached(a: Whole, xs: seq<Input>, n: nat, b: Whole, hz: int, interval: int)
    requires Clamped(hz, interval) && OnlyCron(a.s) && n <= |xs|
  {
    && b == Driven(a, xs[..n], hz, interval)
    && forall k :: 0 <= k < n ==> !Driven(a, xs[..k], hz, interval).stop
  }

  lemma ReachedStart(a: Whole, xs: seq<Input>, hz: int, interval: int)
    requires Clamped(hz, interval) && OnlyCron(a.s)
    ensures Reached(a, xs, 0, a, hz, interval)
  {
    hide Next;
  }

  lemma ReachedNext(a: Whole, xs: seq<Input>, n: nat, b: Whole, hz: int, interval: int)
    requires Clamped(hz, interval) && OnlyCron(a.s) && n < |xs| && Reached(a, xs, n, b, hz, interval) && !b.stop
    ensures OnlyCron(b.s) && Reached(a, xs, n + 1, Next(b, xs[n], hz, interval), hz, interval)
  {
    hide Next;
    assert xs[..n + 1][..n] == xs[..n];
  }

  /** What kernel and clock may do next: distinct watched descriptors fire, and new ones are not in use. */
  ghost predicate Lawful(a: Whole, x: Input) {
    && |x.returned| <= a.w.setsize && KernelReturns(Watched(a.w), x.returned)
    && FreshFds(FilePhase(Proxy.BeforeSleep(a.w), Entries(a.w, x.returned), x.io), x.kernel)
  }

  ghost predicate LawfulRun(a: Whole, xs: seq<Input>, hz: int, interval: int)
    requires Clamped(hz, interval) && OnlyCron(a.s)
  {
    forall k :: 0 <= k < |xs| ==> Lawful(Driven(a, xs[..k], hz, interval), xs[k])
  }

  lemma LawfulNext(a: Whole, xs: seq<Input>, n: nat, b: Whole, hz: int, interval: int)
    requires Clamped(hz, interval) && OnlyCron(a.s) && n < |xs| && Reached(a, xs, n, b, hz, interval)
    requires LawfulRun(a, xs, hz, interval)
    ensures Lawful(b, xs[n])
  {
    hide Next, Lawful;
  }

  /** The daemon before its first turn. */
  ghost function Begin(w: World, now: int, start: Reading): (a: Whole)
    ensures OnlyCron(a.s)
  {
    Whole(w, Added(State([], 0, 0, now, []), 1, start).(pos := 0), 0, false, false, [], [], [], start, start.sec >= 1)
  }

  // ---------- what every run keeps ----------

  /** How often cron has run. */
  function Ticked(bs: seq<bool>): nat {
    if bs == [] then 0 else Ticked(bs[..|bs| - 1]) + if bs[|bs| - 1] then 1 else 0
  }

  /** Every turn reconnected exactly if cron ran in it and its tick was one to reconnect. */
  ghost predicate Followed(turns: seq<Turn>, ran: seq<bool>, interval: int, hz: int)
    requires Clamped(hz, interval)
  {
    && |turns| == |ran|
    && forall k :: 0 <= k < |ran| ==>
         (turns[k].reconnect.Some? <==> ran[k] && ReconnectTick(Ticked(ran[..k]), interval, hz))
  }

  lemma FollowedNext(turns: seq<Turn>, ran: seq<bool>, interval: int, hz: int, t: Turn, due: bool)
    requires Clamped(hz, interval) && Followed(turns, ran, interval, hz)
    requires t.reconnect.Some? <==> due && ReconnectTick(Ticked(ran), interval, hz)
    ensures Followed(turns + [t], ran + [due], interval, hz)
    ensures Ticked(ran + [due]) == Ticked(ran) + if due then 1 else 0
  {
    hide ReconnectTick;
    assert (ran + [due])[..|ran|] == ran;
    assert forall k :: 0 <= k < |ran| ==> (ran + [due])[..k] == ran[..k];
  }

  ghost predicate Ticking(a: Whole, hz: int, interval: int)
    requires Clamped(hz, interval)
  {
    && OnlyCron(a.s) && a.loops == Ticked(a.ran) && Followed(a.turns, a.ran, interval, hz)
    && |a.timeouts| == |a.ran| && (forall k :: 0 <= k < |a.timeouts| ==> a.timeouts[k] >= 0)
    && (a.steady ==>
          && a.clock.sec >= 1 && CronAlone(a.s, a.clock, Tick(hz))
          && forall k :: 0 <= k < |a.timeouts| ==> a.timeouts[k] <= Tick(hz))
  }

  lemma CronStays(s: State, clock: Reading, c: TurnClock, hz: int)
    requires MIN_HZ <= hz <= MAX_HZ && CronAlone(s, clock, Tick(hz)) && clock.sec >= 1 && Forward(clock, c)
    ensures CronAlone(Pass(s, c.wall, CronVisits(c, hz)), c.after, Tick(hz)) && c.after.sec >= 1
    ensures Timeout(s.list, c.poll) <= Tick(hz)
  {
    CronTurnKeeps(CronRun(s, []), clock, c, hz);
  }

  lemma NextTicks(a: Whole, x: Input, hz: int, interval: int)
    requires Clamped(hz, interval) && Ticking(a, hz, interval)
    ensures Ticking(Next(a, x, hz, interval), hz, interval)
  {
    hide ReconnectTick, Followed, CronAlone, CronDue, Entries, Pass, Proxy.OneTurn;
    TickBounds(hz);
    FollowedNext(a.turns, a.ran, interval, hz, TurnOf(a, x, hz, interval), CronDue(a.s, x.clock));
    if a.steady && Forward(a.clock, x.clock) {
      CronStays(a.s, a.clock, x.clock, hz);
    }
  }

  lemma BeginTicks(w: World, now: int, start: Reading, hz: int, interval: int)
    requires Clamped(hz, interval)
    ensures Ticking(Begin(w, now, start), hz, interval)
  {
    TickBounds(hz);
  }

  lemma {:induction false} RunTicks(a: Whole, xs: seq<Input>, hz: int, interval: int)
    requires Clamped(hz, interval) && Ticking(a, hz, interval)
    ensures Ticking(Driven(a, xs, hz, interval), hz, interval)
  {
    hide Next, Ticking;
    if xs != [] {
      TickingIs(a, hz, interval);
      RunTicks(a, xs[..|xs| - 1], hz, interval);
      NextTicks(Driven(a, xs[..|xs| - 1], hz, interval), xs[|xs| - 1], hz, interval);
    }
  }

  lemma TickingIs(a: Whole, hz: int, interval: int)
    requires Clamped(hz, interval) && Ticking(a, hz, interval)
    ensures OnlyCron(a.s)
  {
  }

  /** The longest whole number of ticks that fit in the interval, and at least one. */
  function Period(interval: int, hz: int): (p: nat)
    requires Clamped(hz, interval)
    ensures p >= 1
    ensures interval <= Tick(hz) ==> p == 1
    ensures interval > Tick(hz) ==> p * Tick(hz) <= interval < (p + 1) * Tick(hz)
  {
    PeriodDefined(hz, interval);
    if interval <= Tick(hz) then 1 else interval / Tick(hz)
  }

  /**
   In n turns, those that reconnect are exactly the ones in which cron runs its i-th time, from 0, for an i divisible by
   the period; and while the clock does not go back no poll is given more than a tick to wait.
   */
  ghost predicate OnTicks(a: Whole, n: nat, hz: int, interval: int)
    requires Clamped(hz, interval)
  {
    && |a.turns| == |a.ran| == |a.timeouts| == n
    && (forall k :: 0 <= k < n ==>
          (a.turns[k].reconnect.Some? <==> a.ran[k] && Ticked(a.ran[..k]) % Period(interval, hz) == 0))
    && (a.steady ==> forall k :: 0 <= k < n ==> 0 <= a.timeouts[k] <= Tick(hz))
  }

  /** Over every run of the daemon from its start, whatever kernel, clock and signals do. */
  lemma ReconnectsOnTicks(w: World, now: int, start: Reading, xs: seq<Input>, hz: int, interval: int)
    requires Clamped(hz, interval)
    ensures OnTicks(Driven(Begin(w, now, start), xs, hz, interval), |xs|, hz, interval)
  {
    hide Driven, Begin;
    PeriodDefined(hz, interval);
    BeginTicks(w, now, start, hz, interval);
    RunTicks(Begin(w, now, start), xs, hz, interval);
    TurnsCounted(w, now, start, xs, hz, interval);
  }

  lemma ReachedOnTicks(w: World, now: int, start: Reading, xs: seq<Input>, n: nat, b: Whole, hz: int, interval: int)
    requires Clamped(hz, interval) && n <= |xs| && Reached(Begin(w, now, start), xs, n, b, hz, interval)
    ensures OnTicks(b, n, hz, interval)
  {
    ReconnectsOnTicks(w, now, start, xs[..n], hz, interval);
  }

  lemma {:induction false} TurnsCounted(w: World, now: int, start: Reading, xs: seq<Input>, hz: int, interval: int)
    requires Clamped(hz, interval)
    ensures |Driven(Begin(w, now, start), xs, hz, interval).turns| == |xs|
  {
    if xs != [] {
      TurnsCounted(w, now, start, xs[..|xs| - 1], hz, interval);
    }
  }

  /** A signal came in one of the first n turns. */
  predicate Signalled(xs: seq<Input>, n: nat)
    requires n <= |xs|
  {
    exists j :: 0 <= j < n && xs[j].signal
  }

  /** Cron has run in some turn in or before which a signal came. */
  predicate Stops(ran: seq<bool>, xs: seq<Input>)
    requires |ran| == |xs|
  {
    exists k :: 0 <= k < |xs| && ran[k] && Signalled(xs, k + 1)
  }

  lemma SignalledNext(xs: seq<Input>, x: Input, k: nat)
    requires k <= |xs|
    ensures Signalled(xs + [x], k) <==> Signalled(xs, k)
    ensures Signalled(xs + [x], |xs| + 1) <==> Signalled(xs, |xs|) || x.signal
  {
    if j :| 0 <= j < |xs| && xs[j].signal {
      assert (xs + [x])[j].signal;
    }
    if j :| 0 <= j < k && xs[j].signal {
      assert (xs + [x])[j].signal;
    }
    assert (xs + [x])[|xs|] == x;
  }

  lemma StopsNext(ran: seq<bool>, xs: seq<Input>, due: bool, x: Input)
    requires |ran| == |xs|
    ensures Stops(ran + [due], xs + [x]) <==> Stops(ran, xs) || (due && (Signalled(xs, |xs|) || x.signal))
  {
    hide Signalled;
    var ran', xs' := ran + [due], xs + [x];
    forall k | 0 <= k < |xs| ensures ran'[k] == ran[k] && (Signalled(xs', k + 1) <==> Signalled(xs, k + 1)) {
      SignalledNext(xs, x, k + 1);
    }
    SignalledNext(xs, x, |xs|);
    assert ran'[|xs|] == due;
    if k :| 0 <= k < |xs| && ran[k] && Signalled(xs, k + 1) {
      assert ran'[k] && Signalled(xs', k + 1);
    }
  }

  ghost predicate Stopping(a: Whole, xs: seq<Input>) {
    |a.ran| == |xs| && (a.shutdown <==> Signalled(xs, |xs|)) && (a.stop <==> Stops(a.ran, xs))
  }

  lemma NextStopping(a: Whole, xs: seq<Input>, x: Input, hz: int, interval: int)
    requires Clamped(hz, interval) && OnlyCron(a.s) && Stopping(a, xs)
    ensures Stopping(Next(a, x, hz, interval), xs + [x])
  {
    hide Pass, CronDue, TurnOf, Signalled, Stops, Proxy.OneTurn;
    SignalledNext(xs, x, |xs|);
    StopsNext(a.ran, xs, CronDue(a.s, x.clock), x);
  }

  /** The loop is told to stop if and only if cron has run in a turn in or before which a signal came. */
  lemma {:induction false} StopsExactly(w: World, now: int, start: Reading, xs: seq<Input>, hz: int, interval: int)
    requires Clamped(hz, interval)
    ensures var a := Driven(Begin(w, now, start), xs, hz, interval);
            && |a.ran| == |xs| && (a.shutdown <==> Signalled(xs, |xs|))
            && (a.stop <==> exists k :: 0 <= k < |xs| && a.ran[k] && Signalled(xs, k + 1))
  {
    hide Next;
    if xs != [] {
      var xs', x := xs[..|xs| - 1], xs[|xs| - 1];
      StopsExactly(w, now, start, xs', hz, interval);
      NextStopping(Driven(Begin(w, now, start), xs', hz, interval), xs', x, hz, interval);
      assert xs' + [x] == xs;
    }
  }

  /** A run of the daemon is a run of the data plane. */
  lemma {:induction false} RunIsRun(a: Whole, xs: seq<Input>, hz: int, interval: int)
    requires Clamped(hz, interval) && OnlyCron(a.s) && a.turns == []
    ensures Driven(a, xs, hz, interval).w == Run(a.w, Driven(a, xs, hz, interval).turns)
  {
    hide OneTurn, TurnOf;
    if xs != [] {
      RunIsRun(a, xs[..|xs| - 1], hz, interval);
      var b := Driven(a, xs[..|xs| - 1], hz, interval);
      var t := TurnOf(b, xs[|xs| - 1], hz, interval);
      assert (b.turns + [t])[..|b.turns|] == b.turns;
    }
  }

  lemma WatchedIs(w: World, fd: nat)
    requires WellFormed(w) && fd in Watched(w)
    ensures var id := Holder(w, fd); Holds(w, id, fd) && Watched(w)[fd] == ToInterest(Flags(w.topo, id))
  {
    var id :| Holds(w, id, fd);
    HolderIs(w, id);
  }

  lemma EntriesLegal(w: World, returned: seq<KernelEvent>)
    requires WellFormed(w) && KernelReturns(Watched(w), returned)
    ensures LegalEntries(Proxy.BeforeSleep(w), Entries(w, returned))
  {
    hide Watched, Holder, Flags;
    forall i | 0 <= i < |returned|
      ensures var id := Holder(w, returned[i].fd);
              && Holds(w, id, returned[i].fd) && Watched(w)[returned[i].fd] == ToInterest(Flags(w.topo, id))
    {
      WatchedIs(w, returned[i].fd);
    }
    forall i | 0 <= i < |returned| ensures Flags(w.topo, Holder(w, returned[i].fd)) != AE_NONE {
      FlagsAsk(w.topo, Holder(w, returned[i].fd));
    }
  }

  lemma FlagsAsk(topo: Topology, id: Id)
    requires Exists(topo, id)
    ensures Flags(topo, id) != AE_NONE
  {
  }

  lemma LawfulPrefix(a: Whole, xs: seq<Input>, hz: int, interval: int)
    requires Clamped(hz, interval) && OnlyCron(a.s) && LawfulRun(a, xs, hz, interval) && xs != []
    ensures LawfulRun(a, xs[..|xs| - 1], hz, interval)
    ensures Lawful(Driven(a, xs[..|xs| - 1], hz, interval), xs[|xs| - 1])
  {
    hide Driven, Lawful;
    var n := |xs| - 1;
    forall k | 0 <= k < n ensures Lawful(Driven(a, xs[..n][..k], hz, interval), xs[..n][k]) {
      assert xs[..n][..k] == xs[..k];
    }
  }

  lemma LegalExtends(w: World, ts: seq<Turn>, t: Turn)
    requires LegalRun(w, ts) && LegalTurn(Run(w, ts), t)
    ensures LegalRun(w, ts + [t])
  {
    hide LegalTurn, OneTurn;
    assert (ts + [t])[..|ts|] == ts;
  }

  lemma DrivenTurns(a: Whole, xs: seq<Input>, hz: int, interval: int)
    requires Clamped(hz, interval) && OnlyCron(a.s) && xs != []
    ensures var b := Driven(a, xs[..|xs| - 1], hz, interval);
            Driven(a, xs, hz, interval).turns == b.turns + [TurnOf(b, xs[|xs| - 1], hz, interval)]
  {
    hide TurnOf;
  }

  /** And a lawful run of the daemon is a legal one of the data plane, so that what is proved of those holds in it. */
  lemma {:induction false} LawfulIsLegal(a: Whole, xs: seq<Input>, hz: int, interval: int)
    requires Clamped(hz, interval) && OnlyCron(a.s) && LawfulRun(a, xs, hz, interval)
    requires a.turns == [] && WellFormed(a.w)
    ensures LegalRun(a.w, Driven(a, xs, hz, interval).turns)
  {
    if xs != [] {
      hide *;
      var xs', x := xs[..|xs| - 1], xs[|xs| - 1];
      var b := Driven(a, xs', hz, interval);
      LawfulPrefix(a, xs, hz, interval);
      LawfulIsLegal(a, xs', hz, interval);
      RunIsRun(a, xs', hz, interval);
      DT.RunWellFormed(a.w, b.turns);
      LawfulReturns(b, x);
      EntriesLegal(b.w, x.returned);
      TurnLegal(b, x, hz, interval);
      LegalExtends(a.w, b.turns, TurnOf(b, x, hz, interval));
      DrivenTurns(a, xs, hz, interval);
    }
  }

  lemma LawfulReturns(a: Whole, x: Input)
    requires Lawful(a, x)
    ensures KernelReturns(Watched(a.w), x.returned)
  {
  }

  lemma TurnLegal(b: Whole, x: Input, hz: int, interval: int)
    requires Clamped(hz, interval) && OnlyCron(b.s) && Lawful(b, x)
    requires LegalEntries(Proxy.BeforeSleep(b.w), Entries(b.w, x.returned))
    ensures LegalTurn(b.w, TurnOf(b, x, hz, interval))
  {
    hide Entries, LegalEntries, FreshFds, FilePhase, CronDue, ReconnectTick, KernelReturns;
  }

  lemma {:induction false} LawfulStart(a: Whole, xs: seq<Input>, n: nat, hz: int, interval: int)
    requires Clamped(hz, interval) && OnlyCron(a.s) && LawfulRun(a, xs, hz, interval) && n <= |xs|
    ensures LawfulRun(a, xs[..n], hz, interval)
    decreases |xs|
  {
    hide Driven, Lawful, LawfulRun;
    if n == |xs| {
      assert xs[..n] == xs;
    } else {
      LawfulPrefix(a, xs, hz, interval);
      LawfulStart(a, xs[..|xs| - 1], n, hz, interval);
      assert xs[..|xs| - 1][..n] == xs[..n];
    }
  }

  lemma ReachedLegal(a: Whole, xs: seq<Input>, n: nat, b: Whole, hz: int, interval: int)
    requires Clamped(hz, interval) && OnlyCron(a.s) && LawfulRun(a, xs, hz, interval)
    requires a.turns == [] && WellFormed(a.w)
    requires n <= |xs| && Reached(a, xs, n, b, hz, interval)
    ensures LegalRun(a.w, b.turns) && b.w == Run(a.w, b.turns)
  {
    hide OnlyCron, WellFormed, LawfulRun, LegalRun, Driven;
    LawfulStart(a, xs, n, hz, interval);
    LawfulIsLegal(a, xs[..n], hz, interval);
    RunIsRun(a, xs[..n], hz, interval);
  }
}
