/** Whole runs of the data plane: what an error-free run must deliver, which runs stay defined, and who stays silent. */
module RunTheorems {
  import opened Masks
  import opened Options
  import opened Proxy
  import opened Delivery
  import opened DeliveryTheorems
  import opened OrderTheorems

  // ---------- what an error-free run delivers, exactly ----------

  /** What a device is offered in one turn when nothing fails: its source's chunk, early, late, both or not at all. */
  ghost function TurnOffers(w: World, t: Turn, id: Id, from: Id): seq<Event> {
    if id !in w.links then []
    else
      var fd, chunk := w.links[id].fd, Received(BeforeSleep(w), t.es, t.io, from);
      (if FiredBoth(t.es, id) && Position(t.es, from) < Position(t.es, id)
       then Offer(w.cycle + 1, id, from, chunk, t.io.early(fd)) else [])
      + (if FiredWritable(t.es, id) then Offer(w.cycle + 1, id, from, chunk, t.io.late(fd)) else [])
  }

  ghost function RunOffers(w: World, ts: seq<Turn>, id: Id, from: Id): seq<Event> {
    if ts == [] then []
    else
      RunOffers(w, ts[..|ts| - 1], id, from) + TurnOffers(Run(w, ts[..|ts| - 1]), ts[|ts| - 1], id, from)
  }

  ghost predicate ErrorFree(ts: seq<Turn>) {
    forall i :: 0 <= i < |ts| ==> NoErrors(ts[i].io)
  }

  /** Only devices with a link fire. */
  lemma UnlinkedUnfired(w: World, es: seq<Entry>, id: Id)
    requires LegalEntries(w, es) && id !in w.links
    ensures Position(es, id) == |es| && !FiredReadable(es, id) && !FiredWritable(es, id)
  {
    NotFired(es, id);
  }

  lemma NothingToOffer(w: World, es: seq<Entry>, io: IO, id: Id)
    requires LegalEntries(w, es) && Cleared(w) && Exists(w.topo, id) && id !in w.links
    ensures PassWrites(w, es, io, id) == []
  {
    UnlinkedUnfired(w, es, id);
    LegalAfterReads(w, es, io);
  }

  lemma TurnExact(w: World, t: Turn, id: Id, from: Id)
    requires LegalTurn(w, t) && NoErrors(t.io) && Exists(w.topo, id) && Source(w.topo, id) == Some(from)
    ensures WritesTo(OneTurn(w, t).log, id) == WritesTo(w.log, id) + TurnOffers(w, t, id, from)
  {
    hide FilePhase, OneTurn, LegalEntries, NoErrors, FiredBoth, PassWrites;
    var b := BeforeSleep(w);
    TurnEffect(w, t, id);
    if id !in b.links {
      NothingToOffer(b, t.es, t.io, id);
    } else if from !in b.links || Received(b, t.es, t.io, from) == [] {
      PassOffers(b, t.es, t.io, id);
    } else {
      NoErrorsNoLosses(b, t.es, t.io, id);
      NoErrorsNoLosses(b, t.es, t.io, from);
      ExactMultiplicity(b, t.es, t.io, id);
      PassEffect(b, t.es, t.io, id);
      var early := if FiredBoth(t.es, id) && Position(t.es, from) < Position(t.es, id)
        then Offer(b.cycle, id, from, Received(b, t.es, t.io, from), t.io.early(b.links[id].fd)) else [];
      var late := if FiredWritable(t.es, id)
        then Offer(b.cycle, id, from, Received(b, t.es, t.io, from), t.io.late(b.links[id].fd)) else [];
      Assoc(WritesTo(b.log, id), early, late);
    }
  }

  /**
   Over every error-free run, what is written to a device is exactly, turn by turn and in order, the chunk its source
   received in that turn, whenever the device was linked and fired writable; and once more, before that, whenever the
   device also fired readable after its source. Nothing is lost and nothing is added.
   */
  lemma {:induction false} RunExact(w: World, ts: seq<Turn>, id: Id, from: Id)
    requires LegalRun(w, ts) && ErrorFree(ts) && Exists(w.topo, id) && Source(w.topo, id) == Some(from)
    ensures WritesTo(Run(w, ts).log, id) == WritesTo(w.log, id) + RunOffers(w, ts, id, from)
  {
    hide OneTurn, LegalTurn, NoErrors, TurnOffers;
    if ts == [] {
      assert WritesTo(w.log, id) + [] == WritesTo(w.log, id);
    } else {
      var prefix, t := ts[..|ts| - 1], ts[|ts| - 1];
      assert NoErrors(t.io);
      assert ErrorFree(prefix) by {
        assert forall i :: 0 <= i < |prefix| ==> prefix[i] == ts[i];
      }
      RunExact(w, prefix, id, from);
      RunKeepsTopology(w, prefix);
      TurnExact(Run(w, prefix), t, id, from);
      Assoc(WritesTo(w.log, id), RunOffers(w, prefix, id, from), TurnOffers(Run(w, prefix), t, id, from));
    }
  }

  /** The chunks that the master read in the turns in which a virtual was linked and fired writable. */
  ghost function ChunksFor(w: World, ts: seq<Turn>, m: nat, v: nat): seq<seq<Byte>> {
    if ts == [] then []
    else
      var w1, t := Run(w, ts[..|ts| - 1]), ts[|ts| - 1];
      var chunk := Received(BeforeSleep(w1), t.es, t.io, Master(m));
      ChunksFor(w, ts[..|ts| - 1], m, v)
      + if Virtual(m, v) in w1.links && FiredWritable(t.es, Virtual(m, v)) && chunk != [] then [chunk] else []
  }

  function Offered(ws: seq<Event>): seq<seq<Byte>> {
    if ws == [] then []
    else Offered(ws[..|ws| - 1]) + if ws[|ws| - 1].Write? then [ws[|ws| - 1].offered] else []
  }

  lemma {:induction false} OfferedAppend(a: seq<Event>, b: seq<Event>)
    ensures Offered(a + b) == Offered(a) + Offered(b)
  {
    if b == [] {
      assert a + b == a;
    } else {
      assert (a + b)[..|a + b| - 1] == a + b[..|b| - 1];
      OfferedAppend(a, b[..|b| - 1]);
    }
  }

  /** Turn k of a run is not one whose array order matters to the virtual. */
  ghost predicate SafeAt(w: World, ts: seq<Turn>, k: nat, m: nat, v: nat)
    requires k < |ts|
  {
    SafeTurn(Run(w, ts[..k]), ts[k], m, v)
  }

  ghost predicate SafeTurn(w: World, t: Turn, m: nat, v: nat) {
    Exists(w.topo, Master(m)) && !OrderMatters(BeforeSleep(w), t.es, t.io, m, v)
  }

  lemma NonWriterTurn(w: World, t: Turn, m: nat, v: nat)
    requires LegalTurn(w, t) && Exists(w.topo, Virtual(m, v)) && !w.topo[m][v] && SafeTurn(w, t, m, v)
    ensures var chunk := Received(BeforeSleep(w), t.es, t.io, Master(m));
            Offered(WritesTo(OneTurn(w, t).log, Virtual(m, v)))
            == Offered(WritesTo(w.log, Virtual(m, v)))
               + if Virtual(m, v) in w.links && FiredWritable(t.es, Virtual(m, v)) && chunk != [] then [chunk] else []
  {
    hide FilePhase, OneTurn, LegalEntries, OrderMatters, PassWrites, FiredWritable, Received;
    var b, id, master := BeforeSleep(w), Virtual(m, v), Master(m);
    TurnEffect(w, t, id);
    PassEffect(b, t.es, t.io, id);
    SafeDelivery(b, t.es, t.io, m, v);
    if id in w.links && FiredWritable(t.es, id) {
      var chunk, r := Received(b, t.es, t.io, master), t.io.late(w.links[id].fd);
      OfferedOnce(b.cycle, id, master, chunk, r);
      OfferedAppend(WritesTo(w.log, id), Offer(b.cycle, id, master, chunk, r));
    } else {
      assert WritesTo(w.log, id) + [] == WritesTo(w.log, id);
    }
  }

  lemma OfferedOnce(cycle: nat, to: Id, from: Id, bytes: seq<Byte>, r: WriteResult)
    ensures Offered(Offer(cycle, to, from, bytes, r)) == if bytes == [] then [] else [bytes]
  {
    var ws := Offer(cycle, to, from, bytes, r);
    assert ws != [] ==> ws[..0] == [];
  }

  /**
   A virtual that is not a writer is offered exactly those chunks, each once, in order, in every run in which no turn is
   one whose array order matters to it; whatever else fails, and whoever else loses a link.
   */
  lemma {:induction false} NonWriterRun(w: World, ts: seq<Turn>, m: nat, v: nat)
    requires LegalRun(w, ts) && Exists(w.topo, Virtual(m, v)) && !w.topo[m][v]
    requires forall k :: 0 <= k < |ts| ==> SafeAt(w, ts, k, m, v)
    ensures Offered(WritesTo(Run(w, ts).log, Virtual(m, v)))
              == Offered(WritesTo(w.log, Virtual(m, v))) + ChunksFor(w, ts, m, v)
  {
    hide OneTurn, LegalTurn, SafeTurn, Offered, Received, FiredWritable;
    if ts == [] {
      assert Offered(WritesTo(w.log, Virtual(m, v))) + [] == Offered(WritesTo(w.log, Virtual(m, v)));
    } else {
      var n, prefix := |ts| - 1, ts[..|ts| - 1];
      forall k | 0 <= k < n ensures SafeAt(w, prefix, k, m, v) {
        assert prefix[..k] == ts[..k];
        assert SafeAt(w, ts, k, m, v);
      }
      NonWriterRun(w, prefix, m, v);
      RunKeepsTopology(w, prefix);
      assert SafeAt(w, ts, n, m, v);
      NonWriterTurn(Run(w, prefix), ts[n], m, v);
    }
  }

  // ---------- which runs use a freed link ----------

  /** In this turn some device fires both ways and its read fails. */
  ghost predicate Faulty(w: World, t: Turn) {
    exists i :: 0 <= i < |t.es| && t.es[i].mask.readable && t.es[i].mask.writable
      && t.es[i].id in w.links && t.io.read(w.links[t.es[i].id].fd).Fail?
  }

  lemma TurnFault(w: World, t: Turn)
    requires LegalTurn(w, t)
    ensures OneTurn(w, t).fault <==> w.fault || Faulty(w, t)
  {
    hide FilePhase, Proxy.Reconnect, LegalEntries;
    var b := BeforeSleep(w);
    FaultExactly(b, t.es, t.io);
    TopologyKept(b, t.es, t.io);
    if t.reconnect.Some? {
      ReconnectExact(FilePhase(b, t.es, t.io), |w.topo|, t.reconnect.value);
    }
  }

  ghost predicate FaultyAt(w: World, ts: seq<Turn>, k: nat)
    requires k < |ts|
  {
    Faulty(Run(w, ts[..k]), ts[k])
  }

  /** A run uses a freed link if and only if it has such a turn; all other runs stay within defined behaviour. */
  lemma {:induction false} RunFaultExactly(w: World, ts: seq<Turn>)
    requires LegalRun(w, ts)
    ensures Run(w, ts).fault <==> w.fault || exists k :: 0 <= k < |ts| && FaultyAt(w, ts, k)
  {
    hide OneTurn, Faulty, LegalTurn, FaultyAt;
    if ts != [] {
      var prefix, t := ts[..|ts| - 1], ts[|ts| - 1];
      RunFaultExactly(w, prefix);
      TurnFault(Run(w, prefix), t);
      LastFaulty(w, ts);
      forall k | 0 <= k < |prefix| ensures FaultyAt(w, prefix, k) <==> FaultyAt(w, ts, k) {
        FaultyInPrefix(w, ts, k);
      }
    }
  }

  lemma LastFaulty(w: World, ts: seq<Turn>)
    requires ts != []
    ensures FaultyAt(w, ts, |ts| - 1) <==> Faulty(Run(w, ts[..|ts| - 1]), ts[|ts| - 1])
  {
  }

  lemma FaultyInPrefix(w: World, ts: seq<Turn>, k: nat)
    requires k < |ts| - 1
    ensures FaultyAt(w, ts[..|ts| - 1], k) <==> FaultyAt(w, ts, k)
  {
    assert ts[..|ts| - 1][..k] == ts[..k];
  }

  // ---------- links that could not be registered ----------

  /** A link that is not registered. */
  ghost predicate Mute(w: World, id: Id) {
    id in w.links && !w.links[id].registered
  }

  lemma MuteTurn(w: World, t: Turn, id: Id)
    requires LegalTurn(w, t) && Mute(w, id)
    ensures var w' := OneTurn(w, t);
            && Mute(w', id) && w'.links[id].fd == w.links[id].fd
            && ReadsOf(w'.log, id) == ReadsOf(w.log, id) && WritesTo(w'.log, id) == WritesTo(w.log, id)
  {
    hide Proxy.Reconnect;
    var b := BeforeSleep(w);
    assert SlotMask(b, id) == AE_NONE;
    assert Position(t.es, id) == |t.es|;
    ReadableUnaffected(b, t.es, t.io, id);
    LegalAfterReads(b, t.es, t.io);
    var p := ReadableLoop(b, t.es, t.io);
    WritableFrame(p.w, p.es, t.io, id);
    TopologyKept(b, t.es, t.io);
    if t.reconnect.Some? {
      ReconnectExact(FilePhase(b, t.es, t.io), |w.topo|, t.reconnect.value);
    }
  }

  /**
   A device whose link could not be registered is never read and never written again in any run, however long, and no
   reconnection retries it, because it has a link.
   */
  lemma {:induction false} MuteForever(w: World, ts: seq<Turn>, id: Id)
    requires LegalRun(w, ts) && Mute(w, id)
    ensures var w' := Run(w, ts);
            && Mute(w', id) && w'.links[id].fd == w.links[id].fd
            && ReadsOf(w'.log, id) == ReadsOf(w.log, id) && WritesTo(w'.log, id) == WritesTo(w.log, id)
  {
    hide OneTurn, LegalTurn;
    if ts != [] {
      MuteForever(w, ts[..|ts| - 1], id);
      MuteTurn(Run(w, ts[..|ts| - 1]), ts[|ts| - 1], id);
    }
  }

  /**
   This turn connects the device, which has no link by then, to a descriptor that does not fit the table or that epoll
   refuses. A virtual is connected only with its master.
   */
  ghost predicate MutedBy(w: World, t: Turn, id: Id) {
    && t.reconnect.Some?
    && var w1, kernel := FilePhase(BeforeSleep(w), t.es, t.io), t.reconnect.value;
       && id !in w1.links && kernel(id).Opened?
       && (id.Virtual? ==> Master(id.m) in w1.links || kernel(Master(id.m)).Opened?)
       && (kernel(id).fd >= w.setsize || kernel(id).refused)
  }

  ghost predicate MutedAt(w: World, ts: seq<Turn>, k: nat, id: Id)
    requires k < |ts|
  {
    MutedBy(Run(w, ts[..k]), ts[k], id)
  }

  lemma MuteStep(w: World, t: Turn, id: Id)
    requires LegalTurn(w, t) && Exists(w.topo, id)
    ensures Mute(OneTurn(w, t), id) <==> Mute(w, id) || MutedBy(w, t, id)
  {
    hide FilePhase, Proxy.Reconnect, LegalEntries, FreshFds;
    var b := BeforeSleep(w);
    var w1 := FilePhase(b, t.es, t.io);
    TopologyKept(b, t.es, t.io);
    if Mute(w, id) {
      MuteTurn(w, t, id);
    }
    if id in w1.links {
      LinksKept(b, t.es, t.io, id);
    }
    if t.reconnect.Some? {
      ReconnectExact(w1, |w.topo|, t.reconnect.value);
    }
  }

  lemma MutedInPrefix(w: World, ts: seq<Turn>, k: nat, id: Id)
    requires k < |ts| - 1
    ensures MutedAt(w, ts[..|ts| - 1], k, id) <==> MutedAt(w, ts, k, id)
  {
    assert ts[..|ts| - 1][..k] == ts[..k];
  }

  /** A device is mute after a run if and only if it was before, or some turn of the run has made it so. */
  lemma {:induction false} MuteRunExactly(w: World, ts: seq<Turn>, id: Id)
    requires LegalRun(w, ts) && Exists(w.topo, id)
    ensures Mute(Run(w, ts), id) <==> Mute(w, id) || exists k :: 0 <= k < |ts| && MutedAt(w, ts, k, id)
  {
    hide OneTurn, LegalTurn, Mute, MutedBy;
    if ts != [] {
      var n, prefix := |ts| - 1, ts[..|ts| - 1];
      MuteRunExactly(w, prefix, id);
      RunKeepsTopology(w, prefix);
      MuteStep(Run(w, prefix), ts[n], id);
      assert MutedAt(w, ts, n, id) <==> MutedBy(Run(w, prefix), ts[n], id);
      forall k | 0 <= k < n ensures MutedAt(w, prefix, k, id) <==> MutedAt(w, ts, k, id) {
        MutedInPrefix(w, ts, k, id);
      }
      if k :| 0 <= k < n && MutedAt(w, prefix, k, id) {
        assert MutedAt(w, ts, k, id);
      }
    }
  }
}
