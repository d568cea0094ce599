/** What one turn of the daemon delivers, told in terms of descriptors: what epoll, read and write give. */
module DaemonDelivery {
  import opened Cron
  import opened DaemonSpec
  import opened Delivery
  import opened EventTable
  import opened Options
  import opened Proxy
  import DT = DeliveryTheorems
  import OT = OrderTheorems
  import RT = RunTheorems

  // ---------- what epoll is asked for ----------

  /**
   A registered device is watched under its descriptor, a virtual for output, and for input exactly if it may write; a
   master for input, and for output exactly if one of its virtuals may write.
   */
  lemma WatchedByKind(w: World, id: Id)
    requires WellFormed(w) && id in w.links && w.links[id].registered
    ensures w.links[id].fd in Watched(w)
    ensures var watched := Watched(w)[w.links[id].fd];
            match id
            case Virtual(m, v) => watched.output && (watched.input <==> w.topo[m][v])
            case Master(m) => watched.input && (watched.output <==> exists v :: 0 <= v < |w.topo[m]| && w.topo[m][v])
  {
    HolderIs(w, id);
    WatchedIs(w, w.links[id].fd);
    FirstWriterIsFirst(w.topo[id.m]);
  }

  /** Nothing else is watched. */
  lemma OnlyRegisteredWatched(w: World, fd: nat)
    requires WellFormed(w) && fd in Watched(w)
    ensures exists id :: id in w.links && w.links[id].registered && w.links[id].fd == fd
  {
    WatchedIs(w, fd);
    assert Holds(w, Holder(w, fd), fd);
  }

  // ---------- what epoll reports ----------

  ghost predicate ReportedIn(returned: seq<KernelEvent>, fd: nat) {
    exists i :: 0 <= i < |returned| && returned[i].fd == fd && returned[i].input
  }

  ghost predicate ReportedOut(returned: seq<KernelEvent>, fd: nat) {
    exists i :: 0 <= i < |returned| && returned[i].fd == fd
      && (returned[i].output || returned[i].err || returned[i].hup)
  }

  /** What a device received in the turn. */
  ghost function ChunkRead(w: World, returned: seq<KernelEvent>, io: IO, id: Id): seq<Byte> {
    if id in w.links && ReportedIn(returned, w.links[id].fd) && io.read(w.links[id].fd).Got?
    then io.read(w.links[id].fd).chunk
    else []
  }

  /** How much of n bytes a write takes. */
  function Taken(r: WriteResult, n: nat): nat {
    match r
    case Took(k) => if k <= n then k else n
    case Refused => 0
  }

  lemma EntryIs(w: World, returned: seq<KernelEvent>, i: nat)
    requires WellFormed(w) && KernelReturns(Watched(w), returned) && i < |returned|
    ensures var e := Entries(w, returned)[i];
            && Holds(w, e.id, returned[i].fd) && (e.mask.readable <==> returned[i].input)
            && (e.mask.writable <==> returned[i].output || returned[i].err || returned[i].hup)
  {
    hide Watched, Flags;
    WatchedIs(w, returned[i].fd);
  }

  lemma FiredIsReported(w: World, returned: seq<KernelEvent>, id: Id)
    requires WellFormed(w) && KernelReturns(Watched(w), returned) && id in w.links
    ensures FiredReadable(Entries(w, returned), id) <==> ReportedIn(returned, w.links[id].fd)
    ensures FiredWritable(Entries(w, returned), id) <==> ReportedOut(returned, w.links[id].fd)
  {
    hide Watched, Holder, KernelReturns;
    var es := Entries(w, returned);
    forall i | 0 <= i < |es|
      ensures es[i].id == id <==> returned[i].fd == w.links[id].fd
      ensures es[i].mask.readable <==> returned[i].input
      ensures es[i].mask.writable <==> returned[i].output || returned[i].err || returned[i].hup
    {
      EntryIs(w, returned, i);
    }
    if i :| 0 <= i < |returned| && returned[i].fd == w.links[id].fd && returned[i].input {
      assert es[i].id == id && es[i].mask.readable;
    }
    if i :| 0 <= i < |returned| && returned[i].fd == w.links[id].fd
            && (returned[i].output || returned[i].err || returned[i].hup) {
      assert es[i].id == id && es[i].mask.writable;
    }
  }

  lemma ReceivedIsRead(w: World, returned: seq<KernelEvent>, io: IO, id: Id)
    requires WellFormed(w) && KernelReturns(Watched(w), returned)
    ensures Received(Proxy.BeforeSleep(w), Entries(w, returned), io, id) == ChunkRead(w, returned, io, id)
  {
    hide Watched, Holder, KernelReturns, Entries, FiredReadable, FiredWritable, ReportedIn, ReportedOut;
    if id in w.links {
      FiredIsReported(w, returned, id);
    }
  }

  lemma OfferIs(cycle: nat, to: Id, from: Id, bytes: seq<Byte>, r: WriteResult)
    ensures Offer(cycle, to, from, bytes, r)
            == if bytes == [] then [] else [Write(cycle, to, from, bytes, Taken(r, |bytes|))]
  {
  }

  // ---------- a virtual that is not a writer ----------

  /** The first flagged virtual of a master. */
  ghost predicate IsWriter(topo: Topology, m: nat, f: nat) {
    m < |topo| && f < |topo[m]| && topo[m][f] && forall k :: 0 <= k < f ==> !topo[m][k]
  }

  /**
   Both the master and its writer received something, the master was reported for output, and a write to it would be
   refused: its early one, or its late one while its writer is not sure to have lost its own link by then.
   */
  ghost predicate MasterAtRisk(w: World, returned: seq<KernelEvent>, io: IO, m: nat) {
    exists f :: IsWriter(w.topo, m, f)
      && ChunkRead(w, returned, io, Master(m)) != [] && ChunkRead(w, returned, io, Virtual(m, f)) != []
      && var x, y := w.links[Master(m)].fd, w.links[Virtual(m, f)].fd;
         && ReportedOut(returned, x)
         && (Taken(io.early(x), 1) == 0
             || (Taken(io.late(x), 1) == 0
                 && !(ReportedOut(returned, y) && Taken(io.early(y), 1) == 0 && Taken(io.late(y), 1) == 0)))
  }

  lemma RiskIs(w: World, returned: seq<KernelEvent>, io: IO, m: nat)
    requires WellFormed(w) && KernelReturns(Watched(w), returned) && Exists(w.topo, Master(m))
    ensures OT.AtRisk(Proxy.BeforeSleep(w), Entries(w, returned), io, m) <==> MasterAtRisk(w, returned, io, m)
  {
    hide Watched, Holder, KernelReturns, Entries, FiredReadable, FiredWritable, ReportedIn, ReportedOut, Received,
         ChunkRead, FirstWriter, WellFormed;
    FirstWriterIsFirst(w.topo[m]);
    ReceivedIsRead(w, returned, io, Master(m));
    ReadLinked(w, returned, io, Master(m));
    if Master(m) in w.links {
      FiredIsReported(w, returned, Master(m));
    }
    if FirstWriter(w.topo[m]).Some? {
      var f := FirstWriter(w.topo[m]).value;
      ReceivedIsRead(w, returned, io, Virtual(m, f));
      ReadLinked(w, returned, io, Virtual(m, f));
      if Virtual(m, f) in w.links {
        FiredIsReported(w, returned, Virtual(m, f));
      }
      assert IsWriter(w.topo, m, f);
      assert forall g :: IsWriter(w.topo, m, g) ==> g == f;
    }
  }

  lemma ReadLinked(w: World, returned: seq<KernelEvent>, io: IO, id: Id)
    ensures ChunkRead(w, returned, io, id) != [] ==> id in w.links
  {
  }

  /**
   In every turn in which its master is not at risk, a virtual that is not a writer is written to, once, if and only if
   it has a link, epoll reported its descriptor for output, an error or a hang-up, and its master received something;
   and what is offered is the whole of that. Anything else may fail.
   */
  lemma VirtualServed(a: Whole, x: Input, hz: int, interval: int, m: nat, v: nat)
    requires Clamped(hz, interval) && OnlyCron(a.s) && Lawful(a, x) && WellFormed(a.w)
    requires Exists(a.w.topo, Virtual(m, v)) && !a.w.topo[m][v] && !MasterAtRisk(a.w, x.returned, x.io, m)
    ensures var id, chunk := Virtual(m, v), ChunkRead(a.w, x.returned, x.io, Master(m));
            WritesTo(Next(a, x, hz, interval).w.log, id)
            == WritesTo(a.w.log, id)
               + if id in a.w.links && ReportedOut(x.returned, a.w.links[id].fd) && chunk != []
                 then [Write(a.w.cycle + 1, id, Master(m), chunk, Taken(x.io.late(a.w.links[id].fd), |chunk|))] else []
  {
    hide Watched, Holder, KernelReturns, Entries, FiredReadable, FiredWritable, ReportedIn, ReportedOut, Received,
         ChunkRead, WellFormed, LegalEntries, FilePhase, Proxy.OneTurn, OT.AtRisk, MasterAtRisk, DT.PassWrites,
         FreshFds;
    var id, b, es := Virtual(m, v), Proxy.BeforeSleep(a.w), Entries(a.w, x.returned);
    LawfulReturns(a, x);
    EntriesLegal(a.w, x.returned);
    RiskIs(a.w, x.returned, x.io, m);
    ReceivedIsRead(a.w, x.returned, x.io, Master(m));
    if id in a.w.links {
      FiredIsReported(a.w, x.returned, id);
      OfferIs(b.cycle, id, Master(m), ChunkRead(a.w, x.returned, x.io, Master(m)), x.io.late(a.w.links[id].fd));
    }
    TurnLegal(a, x, hz, interval);
    NextIs(a, x, hz, interval);
    DT.TurnEffect(a.w, TurnOf(a, x, hz, interval), id);
    DT.PassEffect(b, es, x.io, id);
    OT.SafeDelivery(b, es, x.io, m, v);
  }

  lemma NextIs(a: Whole, x: Input, hz: int, interval: int)
    requires Clamped(hz, interval) && OnlyCron(a.s)
    ensures var t := TurnOf(a, x, hz, interval);
            && t.es == Entries(a.w, x.returned) && t.io == x.io
            && Next(a, x, hz, interval).w == Proxy.OneTurn(a.w, t)
  {
    hide Entries, Proxy.OneTurn;
  }

  // ---------- any device, without errors ----------

  /** From whom a device gets its bytes: a virtual from its master, a master from its first flagged virtual. */
  ghost predicate Feeds(topo: Topology, from: Id, id: Id) {
    match id
    case Virtual(m, v) => Exists(topo, id) && from == Master(m)
    case Master(m) => exists f :: IsWriter(topo, m, f) && from == Virtual(m, f)
  }

  lemma FeedsIs(topo: Topology, from: Id, id: Id)
    requires Feeds(topo, from, id)
    ensures Exists(topo, id) && Source(topo, id) == Some(from)
  {
    FirstWriterIsFirst(topo[id.m]);
  }

  /** The descriptor was reported both ways, after the other one. */
  ghost predicate BothAfter(returned: seq<KernelEvent>, first: nat, fd: nat) {
    exists i, j :: 0 <= i < j < |returned| && returned[i].fd == first && returned[j].fd == fd
      && returned[j].input && (returned[j].output || returned[j].err || returned[j].hup)
  }

  lemma PositionReported(w: World, returned: seq<KernelEvent>, i: nat, id: Id)
    requires WellFormed(w) && KernelReturns(Watched(w), returned) && id in w.links && i < |returned|
    requires returned[i].fd == w.links[id].fd
    ensures Position(Entries(w, returned), id) == i
  {
    hide Watched, Holder, Position, Entries;
    var es := Entries(w, returned);
    EntriesSize(w, returned);
    forall k | 0 <= k <= i ensures es[k].id == id <==> k == i {
      EntryIs(w, returned, k);
    }
    var p := Position(es, id);
    assert es[i].id == id && (p < i ==> es[p].id == id);
  }

  lemma EntriesSize(w: World, returned: seq<KernelEvent>)
    ensures |Entries(w, returned)| == |returned|
  {
  }

  lemma BothIsAfter(w: World, returned: seq<KernelEvent>, from: Id, id: Id)
    requires WellFormed(w) && KernelReturns(Watched(w), returned) && id in w.links && from in w.links
    requires ReportedIn(returned, w.links[from].fd)
    ensures var es := Entries(w, returned);
            BothAfter(returned, w.links[from].fd, w.links[id].fd) <==>
              DT.FiredBoth(es, id) && Position(es, from) < Position(es, id)
  {
    hide Watched, Holder, Entries, FiredReadable, FiredWritable, ReportedOut, WellFormed;
    FiredIsReported(w, returned, id);
    var i :| 0 <= i < |returned| && returned[i].fd == w.links[from].fd && returned[i].input;
    PositionReported(w, returned, i, from);
    if j :| 0 <= j < |returned| && returned[j].fd == w.links[id].fd {
      PositionReported(w, returned, j, id);
      OneReport(w, returned, j);
    } else {
      NotReported(returned, w.links[id].fd);
    }
  }

  lemma OneReport(w: World, returned: seq<KernelEvent>, j: nat)
    requires KernelReturns(Watched(w), returned) && j < |returned|
    ensures forall k :: 0 <= k < |returned| && returned[k].fd == returned[j].fd ==> k == j
    ensures ReportedIn(returned, returned[j].fd) <==> returned[j].input
    ensures ReportedOut(returned, returned[j].fd) <==> returned[j].output || returned[j].err || returned[j].hup
  {
    hide Watched;
  }

  lemma NotReported(returned: seq<KernelEvent>, fd: nat)
    requires forall j :: 0 <= j < |returned| ==> returned[j].fd != fd
    ensures !ReportedIn(returned, fd) && !ReportedOut(returned, fd)
  {
  }

  /**
   In a turn in which nothing fails, a device with a link is written what its source received: once if it was reported
   for output, an error or a hang-up, and once more before that if it was reported for input as well, after its source.
   */
  lemma ServedWithoutErrors(a: Whole, x: Input, hz: int, interval: int, id: Id, from: Id)
    requires Clamped(hz, interval) && OnlyCron(a.s) && Lawful(a, x) && WellFormed(a.w)
    requires Feeds(a.w.topo, from, id) && DT.NoErrors(x.io)
    ensures var chunk, n := ChunkRead(a.w, x.returned, x.io, from), a.w.cycle + 1;
            WritesTo(Next(a, x, hz, interval).w.log, id)
            == WritesTo(a.w.log, id)
               + if id !in a.w.links || chunk == [] then []
                 else
                   var fd := a.w.links[id].fd;
                   (if BothAfter(x.returned, a.w.links[from].fd, fd)
                    then [Write(n, id, from, chunk, Taken(x.io.early(fd), |chunk|))] else [])
                   + (if ReportedOut(x.returned, fd)
                      then [Write(n, id, from, chunk, Taken(x.io.late(fd), |chunk|))] else [])
  {
    hide Watched, Holder, KernelReturns, Entries, FiredReadable, FiredWritable, ReportedIn, ReportedOut, Received,
         WellFormed, LegalEntries, FilePhase, Proxy.OneTurn, Feeds, DT.NoErrors, DT.FiredBoth, BothAfter, FreshFds,
         Source;
    LawfulReturns(a, x);
    EntriesLegal(a.w, x.returned);
    FeedsIs(a.w.topo, from, id);
    TurnLegal(a, x, hz, interval);
    NextIs(a, x, hz, interval);
    RT.TurnExact(a.w, TurnOf(a, x, hz, interval), id, from);
    ReceivedIsRead(a.w, x.returned, x.io, from);
    var chunk := ChunkRead(a.w, x.returned, x.io, from);
    if id in a.w.links {
      var fd := a.w.links[id].fd;
      FiredIsReported(a.w, x.returned, id);
      OfferIs(a.w.cycle + 1, id, from, chunk, x.io.early(fd));
      OfferIs(a.w.cycle + 1, id, from, chunk, x.io.late(fd));
      if chunk != [] {
        BothIsAfter(a.w, x.returned, from, id);
      }
    }
  }
}
