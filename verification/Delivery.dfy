/** What the dispatch order of one pass over the fired array delivers. */
module Delivery {
  import opened Masks
  import opened Proxy

  // ---------- vocabulary ----------

  function ReadsOf(log: seq<Event>, id: Id): seq<Event> {
    if log == [] then []
    else
      var e := log[|log| - 1];
      ReadsOf(log[..|log| - 1], id) + if e.Read? && e.id == id then [e] else []
  }

  function WritesTo(log: seq<Event>, id: Id): seq<Event> {
    if log == [] then []
    else
      var e := log[|log| - 1];
      WritesTo(log[..|log| - 1], id) + if e.Write? && e.to == id then [e] else []
  }

  /** The place of a device in the fired array, or its length when the device did not fire. */
  function Position(es: seq<Entry>, id: Id): (k: nat)
    ensures k <= |es|
    ensures k < |es| ==> es[k].id == id
    ensures forall i :: 0 <= i < k ==> es[i].id != id
  {
    if es == [] then 0
    else
      var k := Position(es[..|es| - 1], id);
      if k < |es| - 1 then assert es[k] == es[..|es| - 1][k]; k
      else if es[|es| - 1].id == id then k
      else |es|
  }

  ghost predicate FiredReadable(es: seq<Entry>, id: Id) {
    exists i :: 0 <= i < |es| && es[i].id == id && es[i].mask.readable
  }

  ghost predicate FiredWritable(es: seq<Entry>, id: Id) {
    exists i :: 0 <= i < |es| && es[i].id == id && es[i].mask.writable
  }

  /** The bytes a device received in this pass: a function of what fired and of the kernel, not of the order. */
  ghost function Received(w: World, es: seq<Entry>, io: IO, id: Id): seq<Byte> {
    if id in w.links && FiredReadable(es, id) && io.read(w.links[id].fd).Got?
    then io.read(w.links[id].fd).chunk
    else []
  }

  ghost predicate Cleared(w: World) {
    forall id :: id in w.links ==> w.links[id].len == 0
  }

  lemma FiltersAppend(log: seq<Event>, e: Event, id: Id)
    ensures ReadsOf(log + [e], id) == ReadsOf(log, id) + if e.Read? && e.id == id then [e] else []
    ensures WritesTo(log + [e], id) == WritesTo(log, id) + if e.Write? && e.to == id then [e] else []
  {
  }

  // ---------- one handler call ----------

  /** A handler touches its own device only: no other link, and no log entry about another device. */
  lemma HandleFrame(w: World, id: Id, mask: Mask, rd: ReadResult, wr: WriteResult, other: Id)
    requires Exists(w.topo, id) && id in w.links && other != id
    ensures var w' := Handle(w, id, mask, rd, wr);
            && w'.topo == w.topo && w'.cycle == w.cycle && w'.setsize == w.setsize
            && (other in w'.links <==> other in w.links)
            && (other in w.links ==> w'.links[other] == w.links[other])
            && ReadsOf(w'.log, other) == ReadsOf(w.log, other)
            && WritesTo(w'.log, other) == WritesTo(w.log, other)
  {
    hide WriteHandler, ReadsOf, WritesTo, Source;
    var w1 := if mask.readable then ReadHandler(w, id, rd) else w;
    if mask.readable && rd.Got? {
      FiltersAppend(w.log, Read(w.cycle, id, rd.chunk), other);
    }
    WriteFrame(w1, id, wr, other);
  }

  lemma WriteLinkFrame(w: World, from: Id, id: Id, wr: WriteResult, other: Id)
    ensures var w' := WriteLink(w, from, id, wr);
            && w' == w.(links := w'.links, log := w'.log)
            && (w'.links == w.links || w'.links == w.links - {id})
            && ReadsOf(w'.log, other) == ReadsOf(w.log, other)
            && (other != id ==> WritesTo(w'.log, other) == WritesTo(w.log, other))
  {
    if from in w.links && w.links[from].len > 0 {
      var offered := w.links[from].Pending();
      var e := Write(w.cycle, id, from, offered, Accepted(wr, offered));
      FiltersAppend(w.log, e, other);
      assert WriteLink(w, from, id, wr).log == w.log + [e];
    }
  }

  lemma WriteFrame(w: World, id: Id, wr: WriteResult, other: Id)
    requires Exists(w.topo, id)
    ensures var w' := WriteHandler(w, id, wr);
            && w'.topo == w.topo && w'.cycle == w.cycle && w'.setsize == w.setsize && w'.fault == w.fault
            && (other != id ==> (other in w'.links <==> other in w.links))
            && (other in w'.links ==> other in w.links && w'.links[other] == w.links[other])
            && ReadsOf(w'.log, other) == ReadsOf(w.log, other)
            && (other != id ==> WritesTo(w'.log, other) == WritesTo(w.log, other))
  {
    hide WriteLink, ReadsOf, WritesTo, FirstWriter;
    if Source(w.topo, id).Some? {
      WriteLinkFrame(w, Source(w.topo, id).value, id, wr, other);
    }
  }

  /** The writes a handler makes when its source holds the given bytes: one offer of all of them, or none. */
  function Offer(cycle: nat, to: Id, from: Id, bytes: seq<Byte>, r: WriteResult): seq<Event> {
    if bytes == [] then [] else [Write(cycle, to, from, bytes, Accepted(r, bytes))]
  }

  function Held(w: World, id: Id): seq<Byte> {
    if id in w.links then w.links[id].Pending() else []
  }

  lemma WriteEffect(w: World, id: Id, wr: WriteResult)
    requires Exists(w.topo, id) && id in w.links
    ensures var w' := WriteHandler(w, id, wr);
            var from := Source(w.topo, id);
            && WritesTo(w'.log, id) == WritesTo(w.log, id)
                 + (if from.None? then [] else Offer(w.cycle, id, from.value, Held(w, from.value), wr))
            && (id in w'.links <==> from.None? || Held(w, from.value) == [] || Accepted(wr, Held(w, from.value)) > 0)
  {
  }

  /** What one handler call does to its own device. */
  lemma HandleEffect(w: World, id: Id, mask: Mask, rd: ReadResult, wr: WriteResult)
    requires Exists(w.topo, id) && id in w.links
    ensures var w' := Handle(w, id, mask, rd, wr);
            var from := Source(w.topo, id);
            && ReadsOf(w'.log, id) == ReadsOf(w.log, id)
                 + (if mask.readable && rd.Got? then [Read(w.cycle, id, rd.chunk)] else [])
            && WritesTo(w'.log, id) == WritesTo(w.log, id)
                 + (if mask.writable && !(mask.readable && rd.Fail?) && from.Some?
                    then Offer(w.cycle, id, from.value, Held(w, from.value), wr) else [])
            && (id in w'.links ==>
                  && !(mask.readable && rd.Fail?)
                  && w'.links[id].fd == w.links[id].fd && w'.links[id].registered == w.links[id].registered
                  && w'.links[id].Pending() == if mask.readable && rd.Got? then rd.chunk else w.links[id].Pending())
            && (w'.fault <==> w.fault || (mask.readable && mask.writable && rd.Fail?))
  {
    hide WriteHandler, ReadsOf, WritesTo, Offer, FirstWriter;
    var w1 := if mask.readable then ReadHandler(w, id, rd) else w;
    if mask.readable && rd.Got? {
      FiltersAppend(w.log, Read(w.cycle, id, rd.chunk), id);
      assert w1.links[id].Pending() == rd.chunk;
    }
    var from := Source(w.topo, id);
    assert from.Some? ==> from.value != id;
    if mask.writable && id in w1.links {
      WriteFrame(w1, id, wr, id);
      WriteEffect(w1, id, wr);
    }
  }

  // ---------- the readable loop ----------

  /** A device that has not fired is left alone by the readable loop. */
  lemma {:induction false} ReadableUnaffected(w: World, es: seq<Entry>, io: IO, id: Id)
    requires Position(es, id) == |es|
    ensures var w' := ReadableLoop(w, es, io).w;
            && w'.topo == w.topo && w'.cycle == w.cycle && w'.setsize == w.setsize
            && (id in w'.links <==> id in w.links)
            && (id in w.links ==> w'.links[id] == w.links[id])
            && ReadsOf(w'.log, id) == ReadsOf(w.log, id)
            && WritesTo(w'.log, id) == WritesTo(w.log, id)
  {
    if es != [] {
      var prefix, e := es[..|es| - 1], es[|es| - 1];
      ReadableUnaffected(w, prefix, io, id);
      var w1 := ReadableLoop(w, prefix, io).w;
      if SlotMask(w1, e.id).And(e.mask).readable {
        var fd := w1.links[e.id].fd;
        HandleFrame(w1, e.id, e.mask, io.read(fd), io.early(fd), id);
      }
    }
  }

  lemma LegalPrefix(w: World, es: seq<Entry>)
    requires LegalEntries(w, es) && es != []
    ensures LegalEntries(w, es[..|es| - 1])
    ensures Position(es[..|es| - 1], es[|es| - 1].id) == |es| - 1
    ensures Position(es, es[|es| - 1].id) == |es| - 1
  {
    var prefix := es[..|es| - 1];
    forall i, j | 0 <= i < j < |prefix| ensures prefix[i].id != prefix[j].id {
      assert prefix[i] == es[i] && prefix[j] == es[j];
    }
    forall i | 0 <= i < |prefix|
      ensures SlotMask(w, prefix[i].id) != AE_NONE
              && (prefix[i].mask.readable ==> SlotMask(w, prefix[i].id).readable)
    {
      assert prefix[i] == es[i];
    }
    assert forall i :: 0 <= i < |prefix| ==> es[i] == prefix[i];
  }

  /** A fired device is dispatched with the link it had when it was polled, and its readable bit is used up. */
  lemma ReadableDispatched(w: World, es: seq<Entry>, io: IO)
    requires LegalEntries(w, es) && es != []
    ensures var w1 := ReadableLoop(w, es[..|es| - 1], io).w;
            var e := es[|es| - 1];
            && e.id in w.links && e.id in w1.links && w1.links[e.id] == w.links[e.id]
            && Exists(w.topo, e.id) && w1.topo == w.topo && w1.cycle == w.cycle
            && (SlotMask(w1, e.id).And(e.mask).readable <==> e.mask.readable)
            && ReadableLoop(w, es, io).es[|es| - 1] == e.(mask := e.mask.Minus(AE_READABLE))
  {
    LegalPrefix(w, es);
    ReadableUnaffected(w, es[..|es| - 1], io, es[|es| - 1].id);
  }

  /** The early write of a device: what its source held when the readable loop came to it. */
  function Early(w: World, es: seq<Entry>, io: IO, id: Id): seq<Event>
    requires Exists(w.topo, id)
  {
    var k := Position(es, id);
    if k < |es| && es[k].mask.readable && es[k].mask.writable && id in w.links && !io.read(w.links[id].fd).Fail?
       && Source(w.topo, id).Some?
    then var from := Source(w.topo, id).value;
         Offer(w.cycle, id, from, Held(ReadableLoop(w, es[..k], io).w, from), io.early(w.links[id].fd))
    else []
  }

  lemma FiredPrefix(es: seq<Entry>, id: Id)
    requires es != []
    ensures FiredReadable(es, id) <==>
              FiredReadable(es[..|es| - 1], id) || (es[|es| - 1].id == id && es[|es| - 1].mask.readable)
    ensures FiredWritable(es, id) <==>
              FiredWritable(es[..|es| - 1], id) || (es[|es| - 1].id == id && es[|es| - 1].mask.writable)
  {
  }

  lemma {:induction false} NotFired(es: seq<Entry>, id: Id)
    requires Position(es, id) == |es|
    ensures !FiredReadable(es, id) && !FiredWritable(es, id)
  {
  }

  /** How the state after the readable loop relates to the state before it, seen from one device. */
  ghost predicate ReadableSeen(w: World, w': World, id: Id, received: seq<Byte>, early: seq<Event>) {
    && w'.topo == w.topo && w'.cycle == w.cycle && w'.setsize == w.setsize
    && ReadsOf(w'.log, id) == ReadsOf(w.log, id)
         + (if 0 < |received| <= BUFSIZ then [Read(w.cycle, id, received)] else [])
    && WritesTo(w'.log, id) == WritesTo(w.log, id) + early
    && (id in w'.links ==>
          && id in w.links
          && w'.links[id].fd == w.links[id].fd && w'.links[id].registered == w.links[id].registered
          && w'.links[id].Pending() == received)
  }

  lemma ReadableEffectLast(w: World, es: seq<Entry>, io: IO)
    requires LegalEntries(w, es) && Cleared(w) && es != [] && Exists(w.topo, es[|es| - 1].id)
    ensures var id := es[|es| - 1].id;
            ReadableSeen(w, ReadableLoop(w, es, io).w, id, Received(w, es, io, id), Early(w, es, io, id))
  {
    var prefix, e := es[..|es| - 1], es[|es| - 1];
    LegalPrefix(w, es);
    FiredPrefix(es, e.id);
    ReadableDispatched(w, es, io);
    ReadableUnaffected(w, prefix, io, e.id);
    NotFired(prefix, e.id);
    assert es[..Position(es, e.id)] == prefix;
    var w1 := ReadableLoop(w, prefix, io).w;
    var fd := w1.links[e.id].fd;
    HandleEffect(w1, e.id, e.mask, io.read(fd), io.early(fd));
    HandleFrame(w1, e.id, e.mask, io.read(fd), io.early(fd), if e.id.Master? then Virtual(0, 0) else Master(0));
  }

  /** The readable loop, seen from one device. */
  lemma {:induction false} ReadableEffect(w: World, es: seq<Entry>, io: IO, id: Id)
    requires LegalEntries(w, es) && Cleared(w) && Exists(w.topo, id)
    ensures ReadableSeen(w, ReadableLoop(w, es, io).w, id, Received(w, es, io, id), Early(w, es, io, id))
  {
    if es == [] {
      NotFired(es, id);
    } else if es[|es| - 1].id == id {
      ReadableEffectLast(w, es, io);
    } else {
      var prefix, e := es[..|es| - 1], es[|es| - 1];
      LegalPrefix(w, es);
      ReadableEffect(w, prefix, io, id);
      FiredPrefix(es, id);
      EarlyPrefix(w, es, io, id);
      ReadableDispatched(w, es, io);
      var w1 := ReadableLoop(w, prefix, io).w;
      if e.mask.readable {
        HandleFrame(w1, e.id, e.mask, io.read(w1.links[e.id].fd), io.early(w1.links[e.id].fd), id);
      }
    }
  }

  lemma EarlyPrefix(w: World, es: seq<Entry>, io: IO, id: Id)
    requires Exists(w.topo, id) && es != [] && es[|es| - 1].id != id
    ensures Early(w, es, io, id) == Early(w, es[..|es| - 1], io, id)
  {
    var prefix := es[..|es| - 1];
    var k := Position(prefix, id);
    if k < |prefix| {
      assert es[..k] == prefix[..k] && es[k] == prefix[k];
    }
  }

  // ---------- the writable loop ----------

  ghost predicate ReadsDone(es: seq<Entry>) {
    forall i :: 0 <= i < |es| ==> !es[i].mask.readable
  }

  /** A legal array leaves the readable loop with the same devices, their writable bits, and no readable bit. */
  lemma {:induction false} ReadableLeaves(w: World, es: seq<Entry>, io: IO)
    requires LegalEntries(w, es)
    ensures var es' := ReadableLoop(w, es, io).es;
            && ReadsDone(es')
            && forall i :: 0 <= i < |es| ==> es'[i].id == es[i].id && es'[i].mask.writable == es[i].mask.writable
  {
    if es != [] {
      LegalPrefix(w, es);
      ReadableLeaves(w, es[..|es| - 1], io);
      ReadableDispatched(w, es, io);
    }
  }

  /** The writable loop never revives or alters a link, reads nothing, and leaves unfired devices alone. */
  lemma {:induction false} WritableFrame(w: World, es: seq<Entry>, io: IO, id: Id)
    requires ReadsDone(es)
    ensures var w' := WritableLoop(w, es, io);
            && w'.topo == w.topo && w'.cycle == w.cycle && w'.setsize == w.setsize && w'.fault == w.fault
            && (id in w'.links ==> id in w.links && w'.links[id] == w.links[id])
            && ReadsOf(w'.log, id) == ReadsOf(w.log, id)
            && (Position(es, id) == |es| ==>
                  && (id in w'.links <==> id in w.links)
                  && WritesTo(w'.log, id) == WritesTo(w.log, id))
  {
    if es != [] {
      var prefix, e := es[..|es| - 1], es[|es| - 1];
      WritableFrame(w, prefix, io, id);
      var w1 := WritableLoop(w, prefix, io);
      if SlotMask(w1, e.id).And(e.mask).writable {
        WriteFrame(w1, e.id, io.late(w1.links[e.id].fd), id);
      }
    }
  }

  lemma {:induction false} WritableShrinks(w: World, es: seq<Entry>, k: nat, io: IO, id: Id)
    requires ReadsDone(es) && k <= |es| && id in WritableLoop(w, es, io).links
    ensures id in WritableLoop(w, es[..k], io).links
    decreases |es|
  {
    if k < |es| {
      var prefix := es[..|es| - 1];
      var w1 := WritableLoop(w, prefix, io);
      var e := es[|es| - 1];
      if SlotMask(w1, e.id).And(e.mask).writable {
        WriteFrame(w1, e.id, io.late(w1.links[e.id].fd), id);
      }
      WritableShrinks(w, prefix, k, io, id);
      assert prefix[..k] == es[..k];
    } else {
      assert es[..k] == es;
    }
  }

  /** The late write of a device: what its source held when the writable loop came to it. */
  function Late(w: World, es: seq<Entry>, io: IO, id: Id): seq<Event>
    requires Exists(w.topo, id)
  {
    var k := Position(es, id);
    if k < |es| && SlotMask(w, id).And(es[k].mask).writable && Source(w.topo, id).Some?
    then var from := Source(w.topo, id).value;
         Offer(w.cycle, id, from, Held(WritableLoop(w, es[..k], io), from), io.late(w.links[id].fd))
    else []
  }

  ghost predicate DistinctIds(es: seq<Entry>) {
    forall i, j :: 0 <= i < j < |es| ==> es[i].id != es[j].id
  }

  lemma LatePrefix(w: World, es: seq<Entry>, io: IO, id: Id)
    requires Exists(w.topo, id) && es != [] && es[|es| - 1].id != id
    ensures Late(w, es, io, id) == Late(w, es[..|es| - 1], io, id)
  {
    var prefix := es[..|es| - 1];
    var k := Position(prefix, id);
    if k < |prefix| {
      assert es[..k] == prefix[..k] && es[k] == prefix[k];
    }
  }

  lemma WritableEffectLast(w: World, es: seq<Entry>, io: IO)
    requires ReadsDone(es) && DistinctIds(es) && es != [] && Exists(w.topo, es[|es| - 1].id)
    ensures var id := es[|es| - 1].id;
            WritesTo(WritableLoop(w, es, io).log, id) == WritesTo(w.log, id) + Late(w, es, io, id)
  {
    var prefix, e := es[..|es| - 1], es[|es| - 1];
    assert forall i :: 0 <= i < |prefix| ==> prefix[i] == es[i];
    WritableFrame(w, prefix, io, e.id);
    assert es[..Position(es, e.id)] == prefix;
    var w1 := WritableLoop(w, prefix, io);
    if SlotMask(w1, e.id).And(e.mask).writable {
      WriteEffect(w1, e.id, io.late(w1.links[e.id].fd));
    }
  }

  /** The writable loop, seen from one device. */
  lemma {:induction false} WritableEffect(w: World, es: seq<Entry>, io: IO, id: Id)
    requires ReadsDone(es) && DistinctIds(es) && Exists(w.topo, id)
    ensures WritesTo(WritableLoop(w, es, io).log, id) == WritesTo(w.log, id) + Late(w, es, io, id)
  {
    if es != [] {
      if es[|es| - 1].id == id {
        WritableEffectLast(w, es, io);
      } else {
        var prefix, e := es[..|es| - 1], es[|es| - 1];
        assert forall i :: 0 <= i < |prefix| ==> prefix[i] == es[i];
        WritableEffect(w, prefix, io, id);
        LatePrefix(w, es, io, id);
        WritableFrame(w, prefix, io, id);
        var w1 := WritableLoop(w, prefix, io);
        if SlotMask(w1, e.id).And(e.mask).writable {
          WriteFrame(w1, e.id, io.late(w1.links[e.id].fd), id);
        }
      }
    }
  }

  // ---------- which links a loop leaves ----------

  ghost predicate AllTaken(ws: seq<Event>) {
    forall e :: e in ws ==> e.Write? && e.accepted > 0
  }

  /** The readable loop takes a link away exactly for a failing read or a refused write. */
  lemma {:induction false} ReadableSurvival(w: World, es: seq<Entry>, io: IO, id: Id)
    requires LegalEntries(w, es) && Exists(w.topo, id)
    ensures id in ReadableLoop(w, es, io).w.links <==>
              && id in w.links
              && !(FiredReadable(es, id) && io.read(w.links[id].fd).Fail?)
              && AllTaken(Early(w, es, io, id))
  {
    if es == [] {
      NotFired(es, id);
    } else if es[|es| - 1].id == id {
      ReadableSurvivalLast(w, es, io);
    } else {
      var prefix, e := es[..|es| - 1], es[|es| - 1];
      LegalPrefix(w, es);
      ReadableSurvival(w, prefix, io, id);
      FiredPrefix(es, id);
      EarlyPrefix(w, es, io, id);
      ReadableDispatched(w, es, io);
      var w1 := ReadableLoop(w, prefix, io).w;
      if e.mask.readable {
        HandleFrame(w1, e.id, e.mask, io.read(w1.links[e.id].fd), io.early(w1.links[e.id].fd), id);
      }
    }
  }

  lemma ReadableSurvivalLast(w: World, es: seq<Entry>, io: IO)
    requires LegalEntries(w, es) && es != [] && Exists(w.topo, es[|es| - 1].id)
    ensures var id := es[|es| - 1].id;
            id in ReadableLoop(w, es, io).w.links <==>
              && id in w.links
              && !(FiredReadable(es, id) && io.read(w.links[id].fd).Fail?)
              && AllTaken(Early(w, es, io, id))
  {
    var prefix, e := es[..|es| - 1], es[|es| - 1];
    LegalPrefix(w, es);
    FiredPrefix(es, e.id);
    ReadableDispatched(w, es, io);
    NotFired(prefix, e.id);
    assert es[..Position(es, e.id)] == prefix;
    var w1 := ReadableLoop(w, prefix, io).w;
    var fd := w1.links[e.id].fd;
    HandleSurvival(w1, e.id, e.mask, io.read(fd), io.early(fd));
  }

  /** A handler call takes its own link away exactly when its read fails or its write is refused. */
  lemma HandleSurvival(w: World, id: Id, mask: Mask, rd: ReadResult, wr: WriteResult)
    requires Exists(w.topo, id) && id in w.links
    ensures id in Handle(w, id, mask, rd, wr).links <==>
              && !(mask.readable && rd.Fail?)
              && (mask.writable && Source(w.topo, id).Some? ==>
                    AllTaken(Offer(w.cycle, id, Source(w.topo, id).value, Held(w, Source(w.topo, id).value), wr)))
  {
    hide WriteHandler, FirstWriter;
    var w1 := if mask.readable then ReadHandler(w, id, rd) else w;
    var from := Source(w.topo, id);
    assert from.Some? ==> from.value != id;
    if mask.writable && id in w1.links {
      WriteEffect(w1, id, wr);
    }
  }

  lemma WritableSurvivalLast(w: World, es: seq<Entry>, io: IO)
    requires ReadsDone(es) && DistinctIds(es) && es != [] && Exists(w.topo, es[|es| - 1].id)
    ensures var id := es[|es| - 1].id;
            id in WritableLoop(w, es, io).links <==> id in w.links && AllTaken(Late(w, es, io, id))
  {
    hide WriteHandler, FirstWriter;
    var prefix, e := es[..|es| - 1], es[|es| - 1];
    assert forall i :: 0 <= i < |prefix| ==> prefix[i] == es[i];
    var w1 := WritableLoop(w, prefix, io);
    WritableFrame(w, prefix, io, e.id);
    assert es[..Position(es, e.id)] == prefix;
    if SlotMask(w1, e.id).And(e.mask).writable {
      WriteEffect(w1, e.id, io.late(w1.links[e.id].fd));
    }
  }

  /** The writable loop takes a link away exactly for a refused write. */
  lemma {:induction false} WritableSurvival(w: World, es: seq<Entry>, io: IO, id: Id)
    requires ReadsDone(es) && DistinctIds(es) && Exists(w.topo, id)
    ensures id in WritableLoop(w, es, io).links <==> id in w.links && AllTaken(Late(w, es, io, id))
  {
    hide WriteHandler, Late, AllTaken, FirstWriter;
    if es == [] {
      NoneLate(w, io, id);
    } else if es[|es| - 1].id == id {
      WritableSurvivalLast(w, es, io);
    } else {
      var prefix, e := es[..|es| - 1], es[|es| - 1];
      assert forall i :: 0 <= i < |prefix| ==> prefix[i] == es[i];
      var w1 := WritableLoop(w, prefix, io);
      WritableFrame(w, prefix, io, id);
      WritableSurvival(w, prefix, io, id);
      LatePrefix(w, es, io, id);
      if SlotMask(w1, e.id).And(e.mask).writable {
        WriteFrame(w1, e.id, io.late(w1.links[e.id].fd), id);
      }
    }
  }

  lemma NoneLate(w: World, io: IO, id: Id)
    requires Exists(w.topo, id)
    ensures AllTaken(Late(w, [], io, id))
  {
  }
}
