/**
 The whole daemon on the heap (src/server.c): the data plane, the timer list and cron in one main loop (src/ae.c), from
 start-up to shutdown. The ghost field state is its value in module DaemonSpec.
 */
module Daemon {
  import opened Cron
  import opened DaemonSpec
  import opened EventTable
  import opened Masks
  import opened Options
  import opened Proxy
  import opened ProxyServer
  import opened Timers
  import C = Configuration
  import CT = ConfigurationTheorems
  import IP = IniParser
  import Shutdown
  import Startup
  import TL = TimerList
  import TimerLife
  import TT = TimerTheorems

  // ---------- what epoll watches, and whom it stands for ----------

  /** The interest set is the flags of the registered devices. */
  lemma InterestIs(server: Server)
    requires server.Valid()
    ensures server.el.interest == Watched(server.world)
  {
    hide Server.Valid, Server.Config, Server.Linked, WellFormed, MaxFd, Mirror;
    server.Layout();
    var el, watched := server.el, Watched(server.world);
    MirrorIs(el);
    forall fd: nat ensures fd in el.interest <==> fd in watched {
      if fd in el.interest {
        server.Owned(fd);
        assert Holds(server.world, server.owner[fd], fd);
      }
      if id :| Holds(server.world, id, fd) {
        server.SlotIs(id);
      }
    }
    forall fd | fd in el.interest ensures el.interest[fd] == watched[fd] {
      server.Owned(fd);
      HolderIs(server.world, server.owner[fd]);
    }
  }

  lemma MirrorIs<T>(el: EventLoop<T>)
    requires el.Valid()
    ensures forall fd: nat :: fd in el.interest <==> fd < el.events.Length && el.events[fd].mask != AE_NONE
  {
  }

  /** What it returns stands for the devices that hold the descriptors. */
  lemma EntriesAre(server: Server, returned: seq<KernelEvent>)
    requires server.Valid() && KernelReturns(server.el.interest, returned)
    ensures EntriesOf(server.owner, returned) == Entries(server.world, returned)
  {
    hide Server.Valid, Server.Config, Server.Linked, WellFormed, MaxFd, Mirror;
    server.Layout();
    forall i | 0 <= i < |returned|
      ensures EntriesOf(server.owner, returned)[i] == Entries(server.world, returned)[i]
    {
      server.Owned(returned[i].fd);
      HolderIs(server.world, server.owner[returned[i].fd]);
    }
  }

  class Daemon {
    const server: Server
    const timers: TL.TimerLoop
    const cron: CronServer
    const cronEventId: nat
    ghost var state: Whole

    ghost predicate Valid()
      reads this, server, server.nodes, server.links, server.el, server.el.events, timers, timers.nodes, cron
    {
      && server.Valid() && server.History() && timers.Valid() && cron.Valid()
      && OnlyCron(state.s) && state.s.list[0].id == cronEventId
      && Agrees()
    }

    ghost predicate Agrees()
      reads this, server`world, server`turns, timers`state, cron
    {
      && state.w == server.world && state.turns == server.turns && state.s == timers.state
      && state.loops == cron.cronloops && state.shutdown == cron.shutdown && state.stop == cron.stop
    }

    constructor (server: Server, timers: TL.TimerLoop, cron: CronServer, cronEventId: nat, ghost state: Whole)
      requires server.Valid() && server.History() && timers.Valid() && cron.Valid()
      requires OnlyCron(state.s) && state.s.list[0].id == cronEventId
      requires state.w == server.world && state.turns == server.turns && state.s == timers.state
      requires state.loops == cron.cronloops && state.shutdown == cron.shutdown && state.stop == cron.stop
      ensures Valid() && this.server == server && this.timers == timers && this.cron == cron && this.state == state
      ensures this.cronEventId == cronEventId
    {
      this.server, this.timers, this.cron, this.cronEventId := server, timers, cron, cronEventId;
      this.state := state;
    }

    /** The pass over the timers: cron runs if it is due, and says whether to reconnect. */
    method CronPart(c: TurnClock) returns (due: bool, reconnecting: bool)
      requires timers.Valid() && OnlyCron(timers.state) && cron.Valid()
      modifies timers, timers.nodes, cron`cronloops, cron`stop, cron`reconnects
      ensures timers.Valid() && cron.Valid() && OnlyCron(old(timers.state))
      ensures forall i :: 0 <= i < |timers.nodes| ==> timers.nodes[i] in old(timers.nodes) || fresh(timers.nodes[i])
      ensures OnlyCron(timers.state) && timers.state == Pass(old(timers.state), c.wall, CronVisits(c, cron.hz))
      ensures timers.state.list[0].id == old(timers.state.list[0].id)
      ensures due == CronDue(old(timers.state), c)
      ensures reconnecting == (due && ReconnectTick(old(cron.cronloops), cron.reconnectInterval, cron.hz))
      ensures cron.cronloops == old(cron.cronloops) + if due then 1 else 0
      ensures cron.stop == (old(cron.stop) || (due && cron.shutdown))
    {
      hide Pass, TT.FiredIn;
      TickBounds(cron.hz);
      CronPass(timers.state, c, cron.hz);
      var processed := timers.ProcessTimeEvents(c.wall, CronVisits(c, cron.hz));
      // The callback touches no timer, so that its body can follow the pass that calls it.
      due, reconnecting := processed > 0, false;
      if due {
        var again;
        again, reconnecting := cron.ServerCron();
        assert again == Tick(cron.hz);
      }
    }

    /** The part of a turn before the timers: clearing, polling and dispatching. */
    method FilePart(c: TurnClock, returned: seq<KernelEvent>, io: IO) returns (timeout: int)
      requires server.Valid() && server.History() && timers.Valid()
      requires |returned| <= server.el.setsize && KernelReturns(server.el.interest, returned)
      modifies server`world, server.el`interest, server.el`calls, server.el`maxfd
      modifies server.el.events, server.el.fired, server.nodes`link, server.links`recvbuf, server.links`recvbuflen
      ensures server.Valid() && server.Began(old(server.world)) && timeout == Timeout(timers.state.list, c.poll)
      ensures server.links == old(server.links) && server.owner == old(server.owner)
      ensures var w, es := old(server.world), EntriesOf(old(server.owner), returned);
              && LegalEntries(Proxy.BeforeSleep(w), es)
              && server.world == FilePhase(Proxy.BeforeSleep(w), es, io)
    {
      hide Server.Valid, LegalEntries, FilePhase, Proxy.BeforeSleep, Run, LegalRun, EntriesOf, KernelReturns,
           WellFormed, Timeout;
      server.BeforeSleep();
      timeout := timers.PollTimeout(true, false, c.poll);
      server.ProcessFileEvents(returned, io);
    }

    /** One iteration of aeMain: file events, the pass over the timers, and what cron calls. */
    method OneTurn(c: TurnClock, returned: seq<KernelEvent>, io: IO, kernel: Id -> Connection)
      returns (timeout: int, due: bool, ghost t: Turn)
      requires server.Valid() && server.History() && timers.Valid() && OnlyCron(timers.state) && cron.Valid()
      requires |returned| <= server.el.setsize && KernelReturns(server.el.interest, returned)
      requires FreshFds(FilePhase(Proxy.BeforeSleep(server.world), EntriesOf(server.owner, returned), io), kernel)
      modifies timers, timers.nodes, cron`cronloops, cron`stop, cron`reconnects
      modifies server`world, server`links, server`owner, server.el`interest, server.el`calls, server.el`maxfd
      modifies server.el.events, server.el.fired, server.nodes`link, server.links`recvbuf, server.links`recvbuflen
      modifies server`turns
      ensures server.Valid() && server.History() && timers.Valid() && OnlyCron(timers.state) && cron.Valid()
      ensures OnlyCron(old(timers.state)) && timers.state == Pass(old(timers.state), c.wall, CronVisits(c, cron.hz))
      ensures timers.state.list[0].id == old(timers.state.list[0].id)
      ensures forall i :: 0 <= i < |timers.nodes| ==> timers.nodes[i] in old(timers.nodes) || fresh(timers.nodes[i])
      ensures old(server.links) <= server.links && fresh(server.links - old(server.links))
      ensures timeout == Timeout(old(timers.state.list), c.poll) && due == CronDue(old(timers.state), c)
      ensures t.es == EntriesOf(old(server.owner), returned) && t.io == io
      ensures t.reconnect == if due && ReconnectTick(old(cron.cronloops), cron.reconnectInterval, cron.hz)
                             then Some(kernel) else None
      ensures server.turns == old(server.turns) + [t] && server.world == Proxy.OneTurn(old(server.world), t)
      ensures cron.cronloops == old(cron.cronloops) + if due then 1 else 0
      ensures cron.stop == (old(cron.stop) || (due && cron.shutdown))
    {
      hide Server.Valid, Server.History, TL.TimerLoop.Valid, LegalEntries, FreshFds, FilePhase, Proxy.BeforeSleep, Pass,
           Proxy.OneTurn, EntriesOf, KernelReturns, Timeout, ReconnectTick, CronDue, Server.Began;
      ghost var w, es := server.world, EntriesOf(server.owner, returned);
      timeout := FilePart(c, returned, io);
      var reconnecting;
      due, reconnecting := CronPart(c);
      var reconnect := if reconnecting then Some(kernel) else None;
      t := Turn(es, io, reconnect);
      server.EndTurn(w, t, reconnect);
    }

    /**
     One iteration of aeMain: receive lengths are cleared, the poll is given the time to the next timer, file events are
     dispatched, and the pass over the timers runs cron if it is due, which may reconnect and may stop the loop.
     */
    method Iterate(x: Input) returns (timeout: int)
      requires Valid() && Lawful(state, x)
      modifies this`state, timers, timers.nodes, cron`cronloops, cron`stop, cron`reconnects, cron`shutdown
      modifies server`world, server`links, server`owner, server.el`interest, server.el`calls, server.el`maxfd
      modifies server.el.events, server.el.fired, server.nodes`link, server.links`recvbuf, server.links`recvbuflen
      modifies server`turns
      ensures Valid() && OnlyCron(old(state).s)
      ensures state == Next(old(state), x, cron.hz, cron.reconnectInterval)
      ensures timeout == Timeout(old(state).s.list, x.clock.poll)
      ensures forall i :: 0 <= i < |timers.nodes| ==> timers.nodes[i] in old(timers.nodes) || fresh(timers.nodes[i])
      ensures old(server.links) <= server.links && fresh(server.links - old(server.links))
    {
      hide Server.Valid, Server.History, TL.TimerLoop.Valid, FreshFds, FilePhase, Proxy.BeforeSleep, Pass,
           Proxy.OneTurn, EntriesOf, Entries, KernelReturns, Timeout, ReconnectTick, CronDue, OnlyCron, Watched;
      InterestIs(server);
      EntriesAre(server, x.returned);
      SizeIs();
      if x.signal {
        cron.shutdown := true;
      }
      var due;
      ghost var t;
      timeout, due, t := OneTurn(x.clock, x.returned, x.io, x.kernel);
      state := Next(state, x, cron.hz, cron.reconnectInterval);
    }

    lemma SizeIs()
      requires Valid()
      ensures state.w.setsize == server.el.setsize
    {
    }

    lemma Facts()
      requires Valid()
      ensures Clamped(cron.hz, cron.reconnectInterval) && OnlyCron(state.s) && state.stop == cron.stop
    {
    }

    method ClearStop()
      requires Valid()
      modifies this`state, cron`stop
      ensures Valid() && state == old(state).(stop := false)
    {
      cron.stop := false;
      state := state.(stop := false);
    }

    /** aeMain: iterations until cron stops the loop, or as many as are given. */
    method AeMain(xs: seq<Input>) returns (n: nat)
      requires Valid() && LawfulRun(state.(stop := false), xs, cron.hz, cron.reconnectInterval)
      modifies this`state, timers, timers.nodes, cron`cronloops, cron`stop, cron`reconnects, cron`shutdown
      modifies server`world, server`links, server`owner, server.el`interest, server.el`calls, server.el`maxfd
      modifies server.el.events, server.el.fired, server.nodes`link, server.links`recvbuf, server.links`recvbuflen
      modifies server`turns
      ensures Valid() && n <= |xs| && OnlyCron(old(state).s)
      ensures Reached(old(state).(stop := false), xs, n, state, cron.hz, cron.reconnectInterval)
      ensures n < |xs| ==> state.stop
      ensures forall i :: 0 <= i < |timers.nodes| ==> timers.nodes[i] in old(timers.nodes) || fresh(timers.nodes[i])
      ensures old(server.links) <= server.links && fresh(server.links - old(server.links))
    {
      hide *;
      Facts();
      ClearStop();
      ghost var a, hz, interval := state, cron.hz, cron.reconnectInterval;
      n := 0;
      ReachedStart(a, xs, hz, interval);
      Facts();
      while n < |xs| && !cron.stop
        invariant Valid() && n <= |xs| && state.stop == cron.stop && Reached(a, xs, n, state, hz, interval)
        invariant forall i :: 0 <= i < |timers.nodes| ==> timers.nodes[i] in old(timers.nodes) || fresh(timers.nodes[i])
        invariant old(server.links) <= server.links && fresh(server.links - old(server.links))
      {
        LawfulNext(a, xs, n, state, hz, interval);
        ReachedNext(a, xs, n, state, hz, interval);
        var _ := Iterate(xs[n]);
        n := n + 1;
        Facts();
      }
    }
  }

  /** A list to which the cron timer was added first. */
  method NewTimers(now: int, start: Reading) returns (timers: TL.TimerLoop, id: nat)
    ensures fresh(timers) && (forall i :: 0 <= i < |timers.nodes| ==> fresh(timers.nodes[i]))
    ensures timers.Valid() && timers.state == Added(TimerLife.Start(now), 1, start).(pos := 0) && id == 0
  {
    hide TimerLife.Inv;
    timers := new TL.TimerLoop(now);
    id := timers.CreateTimeEvent(1, start);
    timers.Sizes();
    TimerLife.MovedKeeps(timers.state, timers.state.(pos := 0));
    timers.Record(timers.state.(pos := 0));
  }

  /** The devices as the first connection leaves them. */
  ghost function Connected(lines: seq<IP.Line>, setsize: nat, kernel: Id -> Connection): World {
    var topo := Startup.TopologyOf(C.HandleAll([], Startup.FileCalls(lines)));
    Proxy.Reconnect(Start(topo, setsize), |topo|, kernel)
  }

  /** serverInit, once the settings are read: the cron timer, and the devices of the serial configuration file. */
  method ServerInit(cron: CronServer, lines: seq<IP.Line>, setsize: nat, now: int, start: Reading,
                    kernel: Id -> Connection)
    returns (d: Daemon)
    requires cron.Valid() && cron.cronloops == 0 && !cron.shutdown && !cron.stop
    requires FreshFds(Start([], setsize), kernel)
    ensures fresh(d) && fresh(d.timers) && (forall i :: 0 <= i < |d.timers.nodes| ==> fresh(d.timers.nodes[i]))
    ensures fresh(d.server) && fresh(d.server.nodes) && fresh(d.server.links)
    ensures fresh(d.server.el) && fresh(d.server.el.events) && fresh(d.server.el.fired)
    ensures d.Valid() && d.cron == cron && d.state == Begin(Connected(lines, setsize, kernel), now, start)
    ensures CT.Built(C.HandleAll([], Startup.FileCalls(lines)), Startup.FileCalls(lines))
  {
    hide Server.Valid, Server.History, CT.Built, FreshFds, Proxy.Reconnect, C.HandleAll, Startup.FileCalls;
    var timers, id := NewTimers(now, start);
    var server, ms := Startup.SerialInit(lines, setsize, kernel);
    d := new Daemon(server, timers, cron, id, Begin(server.world, now, start));
  }

  /** No node, no link and no descriptor of a device is held any more. */
  ghost predicate NothingLeft(term: Shutdown.Termination)
    reads term
  {
    term.liveNodes == {} && term.liveLinks == {} && term.open == {}
  }

  /** serverTerm: after serialTerm the cron timer is found and deleted. */
  method ServerTerm(d: Daemon) returns (term: Shutdown.Termination, deleted: bool)
    requires d.Valid()
    modifies d.server.el`interest, d.server.el`calls, d.server.el`maxfd, d.server.el.events
    modifies d.server.nodes`next, d.server.nodes`virtualHead, d.server.nodes`link
    modifies d.timers.nodes`id, d.timers`state
    ensures term.world == d.state.w && NothingLeft(term)
    ensures deleted && d.timers.Valid() && d.timers.state == Marked(old(d.timers.state), d.cronEventId)
  {
    hide Server.Valid, Server.History, TL.TimerLoop.Valid, TimerLife.Life, Marked;
    d.timers.Sizes();
    term := Shutdown.ShutDown(d.server);
    LiveAlone(d.timers.state, d.cronEventId);
    TL.LiveIffListed(d.timers.state, d.cronEventId);
    deleted := d.timers.DeleteTimeEvent(d.cronEventId);
  }

  lemma LiveAlone(s: State, id: nat)
    requires OnlyCron(s) && s.list[0].id == id
    ensures IndexOf(s.list, id) < |s.list|
  {
  }

  /**
   The daemon from start-up to shutdown. Whatever the configuration file says and whatever kernel, clock and signals do
   within the law, the run is that of the state machine; it reconnects exactly on the ticks of its period; and if a
   signal ended it, everything the devices held was given back.
   */
  method RunDaemon(cron: CronServer, lines: seq<IP.Line>, setsize: nat, now: int, start: Reading,
                   kernel: Id -> Connection, xs: seq<Input>)
    returns (d: Daemon, n: nat, term: Shutdown.Termination?)
    requires cron.Valid() && cron.cronloops == 0 && !cron.shutdown && !cron.stop
    requires FreshFds(Start([], setsize), kernel)
    requires LawfulRun(Begin(Connected(lines, setsize, kernel), now, start), xs, cron.hz, cron.reconnectInterval)
    modifies cron`cronloops, cron`stop, cron`reconnects, cron`shutdown
    ensures Clamped(cron.hz, cron.reconnectInterval) && n <= |xs| && d.cron == cron
    ensures Reached(Begin(Connected(lines, setsize, kernel), now, start), xs, n, d.state,
                    cron.hz, cron.reconnectInterval)
    ensures n < |xs| ==> d.state.stop
    ensures OnTicks(d.state, n, cron.hz, cron.reconnectInterval)
    ensures LegalRun(Connected(lines, setsize, kernel), d.state.turns)
    ensures d.state.w == Run(Connected(lines, setsize, kernel), d.state.turns)
    ensures d.state.stop <==> term != null
    ensures term != null ==> term.world == d.state.w && NothingLeft(term)
  {
    hide *;
    d := ServerInit(cron, lines, setsize, now, start, kernel);
    NotStopped(Connected(lines, setsize, kernel), now, start);
    n := d.AeMain(xs);
    d.Facts();
    ReachedOnTicks(Connected(lines, setsize, kernel), now, start, xs, n, d.state, cron.hz, cron.reconnectInterval);
    RunsLegally(lines, setsize, kernel, now, start, xs, n, d.state, cron.hz, cron.reconnectInterval);
    term := null;
    if cron.stop {
      var deleted;
      term, deleted := ServerTerm(d);
    }
  }

  lemma ConnectedWellFormed(lines: seq<IP.Line>, setsize: nat, kernel: Id -> Connection)
    requires FreshFds(Start([], setsize), kernel)
    ensures WellFormed(Connected(lines, setsize, kernel))
  {
    var topo := Startup.TopologyOf(C.HandleAll([], Startup.FileCalls(lines)));
    ReconnectExact(Start(topo, setsize), |topo|, kernel);
  }

  lemma RunsLegally(lines: seq<IP.Line>, setsize: nat, kernel: Id -> Connection, now: int, start: Reading,
                    xs: seq<Input>, n: nat, b: Whole, hz: int, interval: int)
    requires FreshFds(Start([], setsize), kernel) && Clamped(hz, interval) && n <= |xs|
    requires LawfulRun(Begin(Connected(lines, setsize, kernel), now, start), xs, hz, interval)
    requires Reached(Begin(Connected(lines, setsize, kernel), now, start), xs, n, b, hz, interval)
    ensures LegalRun(Connected(lines, setsize, kernel), b.turns)
    ensures b.w == Run(Connected(lines, setsize, kernel), b.turns)
  {
    hide FreshFds, Connected, Reached, LawfulRun, LegalRun, WellFormed, OnlyCron;
    ConnectedWellFormed(lines, setsize, kernel);
    ReachedLegal(Begin(Connected(lines, setsize, kernel), now, start), xs, n, b, hz, interval);
  }

  lemma NotStopped(w: World, now: int, start: Reading)
    ensures Begin(w, now, start).(stop := false) == Begin(w, now, start)
  {
  }
}
