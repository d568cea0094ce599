/** What every pass and every run of the data plane delivers. */
module DeliveryTheorems {
  import opened Options
  import opened Masks
  import opened Proxy
  import opened Delivery

  // ---------- one pass ----------

  /** The writes to a device in one pass: those of the readable loop, then those of the writable loop. */
  function PassWrites(w: World, es: seq<Entry>, io: IO, id: Id): seq<Event>
    requires Exists(w.topo, id)
  {
    var p := ReadableLoop(w, es, io);
    if p.w.topo == w.topo then Early(w, es, io, id) + Late(p.w, p.es, io, id) else []
  }

  lemma LegalAfterReads(w: World, es: seq<Entry>, io: IO)
    requires LegalEntries(w, es)
    ensures var es' := ReadableLoop(w, es, io).es;
            && ReadsDone(es') && DistinctIds(es')
            && (forall id :: Position(es', id) == Position(es, id))
            && (forall i :: 0 <= i < |es| ==> es'[i].id == es[i].id && es'[i].mask.writable == es[i].mask.writable)
  {
    ReadableLeaves(w, es, io);
    var es' := ReadableLoop(w, es, io).es;
    assert forall i :: 0 <= i < |es| ==> es'[i].id == es[i].id;
  }

  /** One pass, seen from one device. */
  lemma PassEffect(w: World, es: seq<Entry>, io: IO, id: Id)
    requires LegalEntries(w, es) && Cleared(w) && Exists(w.topo, id)
    ensures var w' := FilePhase(w, es, io);
            && w'.topo == w.topo && w'.cycle == w.cycle && w'.setsize == w.setsize
            && ReadsOf(w'.log, id) == ReadsOf(w.log, id)
                 + (if 0 < |Received(w, es, io, id)| <= BUFSIZ
                    then [Read(w.cycle, id, Received(w, es, io, id))] else [])
            && WritesTo(w'.log, id) == WritesTo(w.log, id) + PassWrites(w, es, io, id)
            && (id in w'.links ==> id in w.links && w'.links[id].fd == w.links[id].fd
                                   && w'.links[id].registered == w.links[id].registered)
  {
    ReadableEffect(w, es, io, id);
    LegalAfterReads(w, es, io);
    var p := ReadableLoop(w, es, io);
    WritableFrame(p.w, p.es, io, id);
    WritableEffect(p.w, p.es, io, id);
    Assoc(WritesTo(w.log, id), Early(w, es, io, id), Late(p.w, p.es, io, id));
  }

  lemma Assoc<T>(a: seq<T>, b: seq<T>, c: seq<T>)
    ensures (a + b) + c == a + (b + c)
  {
  }

  lemma SourceIsWritten(topo: Topology, id: Id)
    requires Exists(topo, id) && Source(topo, id).Some?
    ensures Flags(topo, id).writable && Source(topo, id).value != id && Exists(topo, Source(topo, id).value)
    ensures Flags(topo, Source(topo, id).value).readable
  {
    FirstWriterIsFirst(topo[id.m]);
  }

  /** A device never holds anything but what it received in this pass. */
  lemma HeldIsReceived(w: World, es: seq<Entry>, io: IO, k: nat, id: Id)
    requires LegalEntries(w, es) && Cleared(w) && Exists(w.topo, id) && k <= |es|
    ensures var held := Held(ReadableLoop(w, es[..k], io).w, id);
            held == [] || held == Received(w, es, io, id)
    ensures id in ReadableLoop(w, es[..k], io).w.links ==>
              Held(ReadableLoop(w, es[..k], io).w, id)
              == if Position(es, id) < k then Received(w, es, io, id) else []
  {
    hide ReadableLoop, FirstWriter;
    assert LegalEntries(w, es[..k]) by {
      assert forall i :: 0 <= i < k ==> es[..k][i] == es[i];
    }
    ReadableEffect(w, es[..k], io, id);
    var j := Position(es, id);
    if j < k {
      assert es[..k][j] == es[j];
      assert FiredReadable(es[..k], id) <==> es[j].mask.readable;
      assert FiredReadable(es, id) <==> es[j].mask.readable;
    }
    if i :| 0 <= i < k && es[..k][i].id == id && es[..k][i].mask.readable {
      assert es[i] == es[..k][i];
    }
  }

  /** e offers to id all the bytes its source received in this pass. */
  ghost predicate OffersReceived(w: World, es: seq<Entry>, io: IO, id: Id, e: Event)
    requires Exists(w.topo, id)
  {
    && Source(w.topo, id).Some?
    && var from := Source(w.topo, id).value;
       && e.Write? && e.cycle == w.cycle && e.to == id && e.from == from
       && e.offered == Received(w, es, io, from) && e.offered != [] && e.accepted <= |e.offered|
  }

  lemma EarlyOffers(w: World, es: seq<Entry>, io: IO, id: Id)
    requires LegalEntries(w, es) && Cleared(w) && Exists(w.topo, id)
    ensures |Early(w, es, io, id)| <= (if Flags(w.topo, id).readable then 1 else 0)
    ensures forall e :: e in Early(w, es, io, id) ==> OffersReceived(w, es, io, id, e)
    ensures Source(w.topo, id).None? ==> Early(w, es, io, id) == []
    ensures Source(w.topo, id).Some? && Received(w, es, io, Source(w.topo, id).value) == [] ==>
              Early(w, es, io, id) == []
  {
    if Source(w.topo, id).Some? {
      SourceIsWritten(w.topo, id);
      HeldIsReceived(w, es, io, Position(es, id), Source(w.topo, id).value);
    }
  }

  /** In the writable loop a device holds nothing but what it received in this pass. */
  lemma LateHeldIsReceived(w: World, es: seq<Entry>, io: IO, k: nat, id: Id)
    requires LegalEntries(w, es) && Cleared(w) && Exists(w.topo, id) && k <= |es|
    ensures var p := ReadableLoop(w, es, io);
            var held := Held(WritableLoop(p.w, p.es[..k], io), id);
            p.w.topo == w.topo && p.w.cycle == w.cycle && (held == [] || held == Received(w, es, io, id))
  {
    var p := ReadableLoop(w, es, io);
    ReadableEffect(w, es, io, id);
    LegalAfterReads(w, es, io);
    assert ReadsDone(p.es[..k]);
    WritableFrame(p.w, p.es[..k], io, id);
  }

  lemma LateOffers(w: World, es: seq<Entry>, io: IO, id: Id)
    requires LegalEntries(w, es) && Cleared(w) && Exists(w.topo, id)
    ensures var p := ReadableLoop(w, es, io);
            && p.w.topo == w.topo
            && |Late(p.w, p.es, io, id)| <= 1
            && (forall e :: e in Late(p.w, p.es, io, id) ==> OffersReceived(w, es, io, id, e))
            && (Source(w.topo, id).None? ==> Late(p.w, p.es, io, id) == [])
            && (Source(w.topo, id).Some? && Received(w, es, io, Source(w.topo, id).value) == [] ==>
                  Late(p.w, p.es, io, id) == [])
  {
    hide ReadableLoop, WritableLoop, FirstWriter, Cleared;
    LegalAfterReads(w, es, io);
    LateHeldIsReceived(w, es, io, Position(es, id), id);
    if Source(w.topo, id).Some? {
      SourceIsWritten(w.topo, id);
      LateHeldIsReceived(w, es, io, Position(es, id), Source(w.topo, id).value);
    }
  }

  /** The writes of a pass are at most one early and one late offer of exactly the bytes the source received. */
  lemma PassOffers(w: World, es: seq<Entry>, io: IO, id: Id)
    requires LegalEntries(w, es) && Cleared(w) && Exists(w.topo, id)
    ensures |PassWrites(w, es, io, id)| <= if Flags(w.topo, id).readable then 2 else 1
    ensures Source(w.topo, id).None? ==> PassWrites(w, es, io, id) == []
    ensures Source(w.topo, id).Some? && Received(w, es, io, Source(w.topo, id).value) == [] ==>
              PassWrites(w, es, io, id) == []
    ensures forall e :: e in PassWrites(w, es, io, id) ==> OffersReceived(w, es, io, id, e)
  {
    EarlyOffers(w, es, io, id);
    LateOffers(w, es, io, id);
  }

  ghost predicate FiredBoth(es: seq<Entry>, id: Id) {
    FiredReadable(es, id) && FiredWritable(es, id)
  }

  lemma FiredAt(es: seq<Entry>, id: Id)
    requires DistinctIds(es)
    ensures var k := Position(es, id);
            && (FiredReadable(es, id) <==> k < |es| && es[k].mask.readable)
            && (FiredWritable(es, id) <==> k < |es| && es[k].mask.writable)
  {
  }

  /** What a device is offered late: what its source received, if the source still has its link at that moment. */
  lemma LateExact(w: World, es: seq<Entry>, io: IO, id: Id)
    requires LegalEntries(w, es) && Cleared(w) && Exists(w.topo, id) && Source(w.topo, id).Some?
    ensures var p := ReadableLoop(w, es, io);
            var from, k := Source(w.topo, id).value, Position(es, id);
            && p.w.topo == w.topo
            && Late(p.w, p.es, io, id)
               == if id in p.w.links && FiredWritable(es, id) && from in WritableLoop(p.w, p.es[..k], io).links
                  then Offer(w.cycle, id, from, Received(w, es, io, from), io.late(w.links[id].fd)) else []
  {
    var p := ReadableLoop(w, es, io);
    var from, k := Source(w.topo, id).value, Position(es, id);
    SourceIsWritten(w.topo, id);
    ReadableEffect(w, es, io, id);
    ReadableEffect(w, es, io, from);
    LegalAfterReads(w, es, io);
    FiredAt(es, id);
    assert ReadsDone(p.es[..k]);
    WritableFrame(p.w, p.es[..k], io, from);
  }

  lemma {:induction false} ReadableShrinks(w: World, es: seq<Entry>, k: nat, io: IO, id: Id)
    requires LegalEntries(w, es) && k <= |es| && id in ReadableLoop(w, es, io).w.links
    ensures id in ReadableLoop(w, es[..k], io).w.links
    decreases |es|
  {
    if k < |es| {
      var prefix, e := es[..|es| - 1], es[|es| - 1];
      LegalPrefix(w, es);
      ReadableDispatched(w, es, io);
      var w1 := ReadableLoop(w, prefix, io).w;
      if e.id != id && e.mask.readable {
        HandleFrame(w1, e.id, e.mask, io.read(w1.links[e.id].fd), io.early(w1.links[e.id].fd), id);
      }
      ReadableShrinks(w, prefix, k, io, id);
      assert prefix[..k] == es[..k];
    } else {
      assert es[..k] == es;
    }
  }

  /** What a device is offered early: what its source received, exactly when the device fired both ways after it. */
  lemma EarlyExact(w: World, es: seq<Entry>, io: IO, id: Id)
    requires LegalEntries(w, es) && Cleared(w) && Exists(w.topo, id) && Source(w.topo, id).Some?
    ensures var from, k := Source(w.topo, id).value, Position(es, id);
            Early(w, es, io, id)
            == if id in w.links && FiredBoth(es, id) && !io.read(w.links[id].fd).Fail? && Position(es, from) < k
                  && from in ReadableLoop(w, es[..k], io).w.links
               then Offer(w.cycle, id, from, Received(w, es, io, from), io.early(w.links[id].fd)) else []
  {
    var from, k := Source(w.topo, id).value, Position(es, id);
    SourceIsWritten(w.topo, id);
    FiredAt(es, id);
    HeldIsReceived(w, es, io, k, from);
  }

  /** A source that has its link at the end of a pass had it at every moment of the pass. */
  lemma KeptThroughout(w: World, es: seq<Entry>, io: IO, k: nat, id: Id)
    requires LegalEntries(w, es) && k <= |es| && id in FilePhase(w, es, io).links
    ensures var p := ReadableLoop(w, es, io);
            && id in ReadableLoop(w, es[..k], io).w.links && id in p.w.links
            && id in WritableLoop(p.w, p.es[..k], io).links
  {
    LegalAfterReads(w, es, io);
    var p := ReadableLoop(w, es, io);
    WritableFrame(p.w, p.es, io, id);
    WritableShrinks(p.w, p.es, k, io, id);
    ReadableShrinks(w, es, k, io, id);
  }

  /** In a pass a device loses its link exactly when its read fails or a write to it is refused. */
  lemma LinkSurvival(w: World, es: seq<Entry>, io: IO, id: Id)
    requires LegalEntries(w, es) && Cleared(w) && Exists(w.topo, id)
    ensures id in FilePhase(w, es, io).links <==>
              && id in w.links
              && !(FiredReadable(es, id) && io.read(w.links[id].fd).Fail?)
              && AllTaken(PassWrites(w, es, io, id))
  {
    hide ReadableLoop, WritableLoop, Early, Late;
    LegalAfterReads(w, es, io);
    ReadableEffect(w, es, io, id);
    var p := ReadableLoop(w, es, io);
    ReadableSurvival(w, es, io, id);
    WritableSurvival(p.w, p.es, io, id);
    assert PassWrites(w, es, io, id) == Early(w, es, io, id) + Late(p.w, p.es, io, id);
  }

  /**
   Exact multiplicity. When neither a device nor its source loses its link in the pass, the device is offered the
   chunk its source received once if it fired writable, and once more, earlier, exactly when it also fired readable
   and its source stands before it in the fired array.
   */
  lemma ExactMultiplicity(w: World, es: seq<Entry>, io: IO, id: Id)
    requires LegalEntries(w, es) && Cleared(w) && Exists(w.topo, id) && Source(w.topo, id).Some?
    requires id in FilePhase(w, es, io).links && Source(w.topo, id).value in FilePhase(w, es, io).links
    ensures var from := Source(w.topo, id).value;
            var chunk := Received(w, es, io, from);
            var early := FiredBoth(es, id) && Position(es, from) < Position(es, id);
            && id in w.links
            && WritesTo(FilePhase(w, es, io).log, id) == WritesTo(w.log, id)
                 + (if early then Offer(w.cycle, id, from, chunk, io.early(w.links[id].fd)) else [])
                 + (if FiredWritable(es, id) then Offer(w.cycle, id, from, chunk, io.late(w.links[id].fd)) else [])
  {
    hide ReadableLoop, WritableLoop;
    PassEffect(w, es, io, id);
    KeptThroughout(w, es, io, Position(es, id), Source(w.topo, id).value);
    EarlyExact(w, es, io, id);
    LateExact(w, es, io, id);
    Survivor(w, es, io, id);
    FiredAt(es, id);
    Assoc(WritesTo(w.log, id), Early(w, es, io, id),
          Late(ReadableLoop(w, es, io).w, ReadableLoop(w, es, io).es, io, id));
  }

  /** A device that keeps its link through the pass had no failing read. */
  lemma Survivor(w: World, es: seq<Entry>, io: IO, id: Id)
    requires LegalEntries(w, es) && Cleared(w) && Exists(w.topo, id) && id in FilePhase(w, es, io).links
    ensures id in w.links && id in ReadableLoop(w, es, io).w.links
    ensures FiredReadable(es, id) ==> !io.read(w.links[id].fd).Fail?
  {
    LegalAfterReads(w, es, io);
    var p := ReadableLoop(w, es, io);
    WritableFrame(p.w, p.es, io, id);
    ReadableEffect(w, es, io, id);
    if FiredReadable(es, id) && io.read(w.links[id].fd).Fail? {
      FailedReadCloses(w, es, io, id);
    }
  }

  /** A device whose read fails has no link after the readable loop. */
  lemma FailedReadCloses(w: World, es: seq<Entry>, io: IO, id: Id)
    requires LegalEntries(w, es) && FiredReadable(es, id) && id in w.links && io.read(w.links[id].fd).Fail?
    ensures id !in ReadableLoop(w, es, io).w.links
  {
    FiredAt(es, id);
    var k := Position(es, id);
    if id in ReadableLoop(w, es, io).w.links {
      ReadableShrinks(w, es, k + 1, io, id);
      var upTo := es[..k + 1];
      assert LegalEntries(w, upTo) by {
        assert forall i :: 0 <= i < |upTo| ==> upTo[i] == es[i];
      }
      ReadableDispatched(w, upTo, io);
      HandleEffect(ReadableLoop(w, upTo[..k], io).w, id, es[k].mask,
                   io.read(w.links[id].fd), io.early(w.links[id].fd));
    }
  }

  /**
   Read-before-write barrier. While a master keeps its link, each of its virtuals that is not a writer and fired
   writable is offered, once, the whole chunk the master read in this same pass, wherever the two stand in the array;
   nothing else is written to it.
   */
  lemma ReadBeforeWrite(w: World, es: seq<Entry>, io: IO, m: nat, v: nat)
    requires LegalEntries(w, es) && Cleared(w) && Exists(w.topo, Virtual(m, v)) && !w.topo[m][v]
    requires Master(m) in FilePhase(w, es, io).links
    ensures WritesTo(FilePhase(w, es, io).log, Virtual(m, v)) == WritesTo(w.log, Virtual(m, v))
              + if Virtual(m, v) in w.links && FiredWritable(es, Virtual(m, v))
                then Offer(w.cycle, Virtual(m, v), Master(m), Received(w, es, io, Master(m)),
                           io.late(w.links[Virtual(m, v)].fd))
                else []
  {
    hide ReadableLoop, WritableLoop, FilePhase, Early, Late, FirstWriter, Cleared;
    var id := Virtual(m, v);
    PassEffect(w, es, io, id);
    KeptThroughout(w, es, io, Position(es, id), Master(m));
    LateExact(w, es, io, id);
    FiredAt(es, id);
    NonWriterKeepsLink(w, es, io, id);
  }

  lemma {:induction false} NonWriterKeepsLink(w: World, es: seq<Entry>, io: IO, id: Id)
    requires LegalEntries(w, es) && Exists(w.topo, id) && !Flags(w.topo, id).readable
    ensures id in ReadableLoop(w, es, io).w.links <==> id in w.links
    ensures Early(w, es, io, id) == []
  {
    if es != [] {
      var prefix, e := es[..|es| - 1], es[|es| - 1];
      LegalPrefix(w, es);
      NonWriterKeepsLink(w, prefix, io, id);
      ReadableDispatched(w, es, io);
      var w1 := ReadableLoop(w, prefix, io).w;
      if e.id != id {
        EarlyPrefix(w, es, io, id);
        if e.mask.readable {
          HandleFrame(w1, e.id, e.mask, io.read(w1.links[e.id].fd), io.early(w1.links[e.id].fd), id);
        }
      }
    }
  }

  /** Nothing is written to a device in a pass, or the kernel takes at least a byte of whatever is. */
  ghost predicate Writable(w: World, es: seq<Entry>, io: IO, id: Id)
    requires Exists(w.topo, id)
  {
    || id !in w.links || !FiredWritable(es, id) || Source(w.topo, id).None?
    || (var fd := w.links[id].fd;
        io.early(fd).Took? && io.early(fd).n > 0 && io.late(fd).Took? && io.late(fd).n > 0)
  }

  lemma WritableTaken(w: World, es: seq<Entry>, io: IO, id: Id)
    requires LegalEntries(w, es) && Cleared(w) && Exists(w.topo, id) && Writable(w, es, io, id)
    ensures AllTaken(PassWrites(w, es, io, id))
  {
    hide ReadableLoop, WritableLoop;
    PassOffers(w, es, io, id);
    FiredAt(es, id);
    LegalAfterReads(w, es, io);
    ReadableEffect(w, es, io, id);
    if Source(w.topo, id).Some? {
      EarlyExact(w, es, io, id);
      LateExact(w, es, io, id);
    }
  }

  lemma SameFired(es: seq<Entry>, es': seq<Entry>, id: Id)
    requires multiset(es) == multiset(es')
    ensures FiredReadable(es, id) <==> FiredReadable(es', id)
    ensures FiredWritable(es, id) <==> FiredWritable(es', id)
  {
    forall e ensures e in es <==> e in es' {
      assert e in es <==> e in multiset(es);
      assert e in es' <==> e in multiset(es');
    }
    assert FiredReadable(es, id) <==> exists e :: e in es && e.id == id && e.mask.readable;
    assert FiredReadable(es', id) <==> exists e :: e in es' && e.id == id && e.mask.readable;
    assert FiredWritable(es, id) <==> exists e :: e in es && e.id == id && e.mask.writable;
    assert FiredWritable(es', id) <==> exists e :: e in es' && e.id == id && e.mask.writable;
  }

  ghost predicate NoErrors(io: IO) {
    forall fd :: !io.read(fd).Fail? && io.early(fd).Took? && io.early(fd).n > 0
                 && io.late(fd).Took? && io.late(fd).n > 0
  }

  /** In a pass without I/O errors no link is lost, so the two results above apply to every device. */
  lemma NoErrorsNoLosses(w: World, es: seq<Entry>, io: IO, id: Id)
    requires LegalEntries(w, es) && NoErrors(io) && id in w.links
    ensures id in FilePhase(w, es, io).links
  {
    ReadableKeeps(w, es, io, id);
    LegalAfterReads(w, es, io);
    var p := ReadableLoop(w, es, io);
    WritableKeeps(p.w, p.es, io, id);
  }

  lemma {:induction false} ReadableKeeps(w: World, es: seq<Entry>, io: IO, id: Id)
    requires LegalEntries(w, es) && NoErrors(io) && id in w.links
    ensures id in ReadableLoop(w, es, io).w.links
  {
    if es != [] {
      var prefix, e := es[..|es| - 1], es[|es| - 1];
      LegalPrefix(w, es);
      ReadableKeeps(w, prefix, io, id);
      ReadableDispatched(w, es, io);
      var w1 := ReadableLoop(w, prefix, io).w;
      if e.id != id && e.mask.readable {
        HandleFrame(w1, e.id, e.mask, io.read(w1.links[e.id].fd), io.early(w1.links[e.id].fd), id);
      }
    }
  }

  lemma {:induction false} WritableKeeps(w: World, es: seq<Entry>, io: IO, id: Id)
    requires ReadsDone(es) && NoErrors(io) && id in w.links
    ensures id in WritableLoop(w, es, io).links
  {
    if es != [] {
      WritableKeeps(w, es[..|es| - 1], io, id);
    }
  }

  // ---------- a link used after its release ----------

  /**
   The write part of a handler uses a link that its read part has freed exactly when some device fires both readable
   and writable and its read fails; a hang-up makes a device fire writable even if only reading was asked for.
   */
  lemma FaultExactly(w: World, es: seq<Entry>, io: IO)
    requires LegalEntries(w, es)
    ensures FilePhase(w, es, io).fault <==>
              w.fault
              || exists i :: 0 <= i < |es| && es[i].mask.readable && es[i].mask.writable
                             && es[i].id in w.links && io.read(w.links[es[i].id].fd).Fail?
  {
    ReadableFault(w, es, io);
    LegalAfterReads(w, es, io);
    var p := ReadableLoop(w, es, io);
    WritableFrame(p.w, p.es, io, Master(0));
  }

  lemma {:induction false} ReadableFault(w: World, es: seq<Entry>, io: IO)
    requires LegalEntries(w, es)
    ensures ReadableLoop(w, es, io).w.fault <==>
              w.fault
              || exists i :: 0 <= i < |es| && es[i].mask.readable && es[i].mask.writable
                             && es[i].id in w.links && io.read(w.links[es[i].id].fd).Fail?
  {
    if es != [] {
      var prefix, e := es[..|es| - 1], es[|es| - 1];
      assert forall i :: 0 <= i < |prefix| ==> prefix[i] == es[i];
      LegalPrefix(w, es);
      ReadableFault(w, prefix, io);
      ReadableDispatched(w, es, io);
      var w1 := ReadableLoop(w, prefix, io).w;
      if e.mask.readable {
        HandleEffect(w1, e.id, e.mask, io.read(w1.links[e.id].fd), io.early(w1.links[e.id].fd));
      }
    }
  }

  // ---------- whole runs ----------

  /** The writes of which the kernel took at least one byte. */
  function Delivered(ws: seq<Event>): seq<Event> {
    if ws == [] then []
    else
      var e := ws[|ws| - 1];
      Delivered(ws[..|ws| - 1]) + if e.Write? && e.accepted > 0 then [e] else []
  }

  lemma {:induction false} DeliveredAppend(a: seq<Event>, b: seq<Event>)
    ensures Delivered(a + b) == Delivered(a) + Delivered(b)
    ensures |Delivered(b)| <= |b| && forall e :: e in Delivered(b) ==> e in b && e.Write? && e.accepted > 0
  {
    if b == [] {
      assert a + b == a;
    } else {
      var b' := b[..|b| - 1];
      assert (a + b)[..|a + b| - 1] == a + b';
      DeliveredAppend(a, b');
    }
  }

  /** A delivery is a nonempty prefix of a chunk that was read in the same turn from the device it names. */
  ghost predicate Fits(out: Event, chunk: Event) {
    && out.Write? && chunk.Read?
    && out.from == chunk.id && out.cycle == chunk.cycle
    && out.offered == chunk.chunk && 0 < out.accepted <= |chunk.chunk|
  }

  /** The deliveries fit an order-preserving choice of chunks in which no chunk is used more than `uses` times. */
  ghost predicate Picks(outs: seq<Event>, chunks: seq<Event>, idx: seq<nat>, uses: nat) {
    && |idx| == |outs|
    && (forall i :: 0 <= i < |idx| ==> idx[i] < |chunks| && Fits(outs[i], chunks[idx[i]]))
    && (forall i, j :: 0 <= i <= j < |idx| ==> idx[i] <= idx[j])
    && (forall i, j :: 0 <= i && i + uses <= j < |idx| ==> idx[i] < idx[j])
  }

  /** One more chunk, and at most `uses` deliveries that fit it. */
  lemma PicksExtend(outs: seq<Event>, chunks: seq<Event>, idx: seq<nat>, uses: nat, more: seq<Event>, chunk: Event)
    requires Picks(outs, chunks, idx, uses) && |more| <= uses
    requires forall e :: e in more ==> Fits(e, chunk)
    ensures Picks(outs + more, chunks + [chunk], idx + seq(|more|, _ => |chunks|), uses)
  {
  }

  lemma TurnEffect(w: World, t: Turn, id: Id)
    requires LegalTurn(w, t) && Exists(w.topo, id)
    ensures var b := BeforeSleep(w);
            var w' := OneTurn(w, t);
            && Cleared(b) && b.topo == w.topo && b.log == w.log
            && w'.topo == w.topo && w'.setsize == w.setsize
            && ReadsOf(w'.log, id) == ReadsOf(w.log, id)
                 + (if 0 < |Received(b, t.es, t.io, id)| <= BUFSIZ
                    then [Read(b.cycle, id, Received(b, t.es, t.io, id))] else [])
            && WritesTo(w'.log, id) == WritesTo(w.log, id) + PassWrites(b, t.es, t.io, id)
  {
    PassEffect(BeforeSleep(w), t.es, t.io, id);
    if t.reconnect.Some? {
      ReconnectExact(FilePhase(BeforeSleep(w), t.es, t.io), |w.topo|, t.reconnect.value);
    }
  }

  lemma {:induction false} RunKeepsTopology(w: World, ts: seq<Turn>)
    requires LegalRun(w, ts)
    ensures Run(w, ts).topo == w.topo && Run(w, ts).setsize == w.setsize
  {
    if ts != [] {
      RunKeepsTopology(w, ts[..|ts| - 1]);
      var w1, t := Run(w, ts[..|ts| - 1]), ts[|ts| - 1];
      TopologyKept(BeforeSleep(w1), t.es, t.io);
      if t.reconnect.Some? {
        ReconnectExact(FilePhase(BeforeSleep(w1), t.es, t.io), |w.topo|, t.reconnect.value);
      }
    }
  }

  lemma TopologyKept(w: World, es: seq<Entry>, io: IO)
    requires LegalEntries(w, es)
    ensures FilePhase(w, es, io).topo == w.topo && FilePhase(w, es, io).setsize == w.setsize
  {
    var absent := Fresh(es);
    ReadableUnaffected(w, es, io, absent);
    LegalAfterReads(w, es, io);
    var p := ReadableLoop(w, es, io);
    WritableFrame(p.w, p.es, io, absent);
  }

  /** A device that did not fire. */
  ghost function Fresh(es: seq<Entry>): (id: Id)
    ensures Position(es, id) == |es|
  {
    Master(Above(es))
  }

  ghost function Above(es: seq<Entry>): (m: nat)
    ensures forall i :: 0 <= i < |es| ==> es[i].id.m < m
  {
    if es == [] then 0
    else
      var m := Above(es[..|es| - 1]);
      assert forall i :: 0 <= i < |es| - 1 ==> es[i] == es[..|es| - 1][i];
      if es[|es| - 1].id.m < m then m else es[|es| - 1].id.m + 1
  }

  /** What one turn adds to the chunks of a source and to the deliveries of a device. */
  lemma TurnAdds(w: World, t: Turn, id: Id, from: Id) returns (more: seq<Event>, chunk: seq<Event>)
    requires LegalTurn(w, t) && Exists(w.topo, id) && Source(w.topo, id) == Some(from)
    ensures Delivered(WritesTo(OneTurn(w, t).log, id)) == Delivered(WritesTo(w.log, id)) + more
    ensures ReadsOf(OneTurn(w, t).log, from) == ReadsOf(w.log, from) + chunk
    ensures |chunk| <= 1 && (chunk == [] ==> more == [])
    ensures |more| <= if Flags(w.topo, id).readable then 2 else 1
    ensures forall e :: e in more && chunk != [] ==> Fits(e, chunk[0])
  {
    var b := BeforeSleep(w);
    var d := PassWrites(b, t.es, t.io, id);
    var got := Received(b, t.es, t.io, from);
    SourceIsWritten(w.topo, id);
    TurnEffect(w, t, id);
    TurnEffect(w, t, from);
    PassOffers(b, t.es, t.io, id);
    DeliveredAppend(WritesTo(w.log, id), d);
    DeliveredAppend([], d);
    more := Delivered(d);
    chunk := if got == [] then [] else [Read(b.cycle, from, got)];
    forall e | e in more && chunk != [] ensures Fits(e, chunk[0]) {
      assert OffersReceived(b, t.es, t.io, id, e);
    }
  }

  /** One turn extends the choice of chunks of a run by at most the one chunk its source read in it. */
  lemma TurnPicks(w: World, t: Turn, id: Id, from: Id, idx: seq<nat>) returns (idx': seq<nat>)
    requires LegalTurn(w, t) && Exists(w.topo, id) && Source(w.topo, id) == Some(from)
    requires Picks(Delivered(WritesTo(w.log, id)), ReadsOf(w.log, from), idx,
                   if Flags(w.topo, id).readable then 2 else 1)
    ensures Picks(Delivered(WritesTo(OneTurn(w, t).log, id)), ReadsOf(OneTurn(w, t).log, from), idx',
                  if Flags(w.topo, id).readable then 2 else 1)
  {
    var more, chunk := TurnAdds(w, t, id, from);
    var outs, chunks := Delivered(WritesTo(w.log, id)), ReadsOf(w.log, from);
    if chunk == [] {
      assert chunks + chunk == chunks && outs + more == outs;
      idx' := idx;
    } else {
      PicksExtend(outs, chunks, idx, if Flags(w.topo, id).readable then 2 else 1, more, chunk[0]);
      assert chunk == [chunk[0]];
      idx' := idx + seq(|more|, _ => |chunks|);
    }
  }

  /**
   Over every run, the bytes written to a device are, in order, nonempty prefixes of chunks read from its one source
   in the same turn: each chunk is used at most once for a virtual that is not a writer, at most twice for a device
   registered both ways. For a virtual the source is its own master; for a master it is its first flagged virtual.
   */
  lemma {:induction false} RunDeliveries(w: World, ts: seq<Turn>, id: Id, from: Id) returns (idx: seq<nat>)
    requires LegalRun(w, ts) && w.log == [] && Exists(w.topo, id) && Source(w.topo, id) == Some(from)
    ensures Picks(Delivered(WritesTo(Run(w, ts).log, id)), ReadsOf(Run(w, ts).log, from), idx,
                  if Flags(w.topo, id).readable then 2 else 1)
  {
    if ts == [] {
      idx := [];
    } else {
      var prefix := ts[..|ts| - 1];
      idx := RunDeliveries(w, prefix, id, from);
      RunKeepsTopology(w, prefix);
      idx := TurnPicks(Run(w, prefix), ts[|ts| - 1], id, from, idx);
    }
  }

  /** A master without a flagged virtual is never written to. */
  lemma {:induction false} RunSilent(w: World, ts: seq<Turn>, id: Id)
    requires LegalRun(w, ts) && w.log == [] && Exists(w.topo, id) && Source(w.topo, id).None?
    ensures WritesTo(Run(w, ts).log, id) == []
  {
    if ts != [] {
      var prefix, t := ts[..|ts| - 1], ts[|ts| - 1];
      RunSilent(w, prefix, id);
      RunKeepsTopology(w, prefix);
      TurnEffect(Run(w, prefix), t, id);
      PassOffers(BeforeSleep(Run(w, prefix)), t.es, t.io, id);
    }
  }

  /** In every state of a run the links belong to configured devices and have distinct descriptors. */
  lemma {:induction false} RunWellFormed(w: World, ts: seq<Turn>)
    requires LegalRun(w, ts) && WellFormed(w)
    ensures WellFormed(Run(w, ts)) && Run(w, ts).topo == w.topo
  {
    RunKeepsTopology(w, ts);
    if ts != [] {
      var w1, t := Run(w, ts[..|ts| - 1]), ts[|ts| - 1];
      RunWellFormed(w, ts[..|ts| - 1]);
      var b := BeforeSleep(w1);
      var w2 := FilePhase(b, t.es, t.io);
      TopologyKept(b, t.es, t.io);
      forall id | id in w2.links ensures id in b.links && w2.links[id].fd == b.links[id].fd {
        LinksKept(b, t.es, t.io, id);
      }
      if t.reconnect.Some? {
        ReconnectExact(w2, |w.topo|, t.reconnect.value);
      }
    }
  }

  lemma LinksKept(w: World, es: seq<Entry>, io: IO, id: Id)
    requires LegalEntries(w, es) && Cleared(w) && id in FilePhase(w, es, io).links
    ensures id in w.links && FilePhase(w, es, io).links[id].fd == w.links[id].fd
    ensures FilePhase(w, es, io).links[id].registered == w.links[id].registered
  {
    LegalAfterReads(w, es, io);
    var p := ReadableLoop(w, es, io);
    WritableFrame(p.w, p.es, io, id);
    if Position(es, id) == |es| {
      ReadableUnaffected(w, es, io, id);
    } else {
      assert SlotMask(w, es[Position(es, id)].id) != AE_NONE;
      ReadableEffect(w, es, io, id);
    }
  }
}
