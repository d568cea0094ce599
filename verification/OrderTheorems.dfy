/** Exactly when the order of the fired array matters to a virtual that is not a writer. */
module OrderTheorems {
  import opened Masks
  import opened Options
  import opened Proxy
  import opened Delivery
  import opened DeliveryTheorems

  predicate Refuses(r: WriteResult) {
    r.Refused? || r.n == 0
  }

  /**
   The master can lose its link to a write before the virtuals are served, or not, depending on the order: its first
   flagged virtual has something for it, and its early write would be refused, or its late one, unless that virtual is
   sure to have lost its own link by then.
   */
  ghost predicate AtRisk(w: World, es: seq<Entry>, io: IO, m: nat)
    requires Exists(w.topo, Master(m))
  {
    && Source(w.topo, Master(m)).Some?
    && var master, writer := Master(m), Source(w.topo, Master(m)).value;
       && Received(w, es, io, master) != [] && Received(w, es, io, writer) != [] && FiredWritable(es, master)
       && var x, y := w.links[master].fd, w.links[writer].fd;
          || Refuses(io.early(x))
          || (Refuses(io.late(x))
              && !(FiredWritable(es, writer) && Refuses(io.early(y)) && Refuses(io.late(y))))
  }

  ghost predicate OrderMatters(w: World, es: seq<Entry>, io: IO, m: nat, v: nat)
    requires Exists(w.topo, Master(m))
  {
    Virtual(m, v) in w.links && FiredWritable(es, Virtual(m, v)) && AtRisk(w, es, io, m)
  }

  // ---------- a pair of devices, each the source of the other ----------

  ghost predicate Paired(w: World, es: seq<Entry>, io: IO, a: Id, b: Id) {
    && LegalEntries(w, es) && Cleared(w) && Exists(w.topo, a) && Exists(w.topo, b)
    && Source(w.topo, a) == Some(b) && Source(w.topo, b) == Some(a)
    && Received(w, es, io, a) != [] && Received(w, es, io, b) != []
  }

  lemma ReceivedFired(w: World, es: seq<Entry>, io: IO, id: Id)
    requires LegalEntries(w, es) && Received(w, es, io, id) != []
    ensures id in w.links && FiredReadable(es, id) && Position(es, id) < |es| && !io.read(w.links[id].fd).Fail?
  {
    FiredAt(es, id);
  }

  /** The first of the two outlives the readable loop; the second does too, unless its early write is refused. */
  lemma PairReads(w: World, es: seq<Entry>, io: IO, a: Id, b: Id)
    requires Paired(w, es, io, a, b) && Position(es, a) < Position(es, b)
    ensures var p := ReadableLoop(w, es, io);
            && a in p.w.links && a in w.links && b in w.links
            && (b in p.w.links <==> !(FiredWritable(es, b) && Refuses(io.early(w.links[b].fd))))
  {
    hide ReadableLoop, Early;
    ReceivedFired(w, es, io, a);
    ReceivedFired(w, es, io, b);
    EarlyExact(w, es, io, a);
    ReadableSurvival(w, es, io, a);
    ReadableShrinks(w, es, Position(es, b), io, a);
    EarlyExact(w, es, io, b);
    ReadableSurvival(w, es, io, b);
    OfferTaken(w.cycle, b, a, Received(w, es, io, a), io.early(w.links[b].fd));
  }

  lemma OfferTaken(cycle: nat, to: Id, from: Id, bytes: seq<Byte>, r: WriteResult)
    ensures AllTaken(Offer(cycle, to, from, bytes, r)) <==> bytes == [] || !Refuses(r)
    ensures AllTaken([])
  {
    if bytes != [] {
      assert Offer(cycle, to, from, bytes, r)[0] in Offer(cycle, to, from, bytes, r);
    }
  }

  /** The state of the writable loop before entry k. */
  ghost function Before(w: World, es: seq<Entry>, io: IO, k: nat): World
    requires k <= |es|
  {
    var p := ReadableLoop(w, es, io);
    WritableLoop(p.w, p.es[..k], io)
  }

  /** A device not yet dispatched in the writable loop has the link that the readable loop left it. */
  lemma NotYet(w: World, es: seq<Entry>, io: IO, id: Id, k: nat)
    requires LegalEntries(w, es) && k <= |es|
    ensures id in Before(w, es, io, k).links ==> id in ReadableLoop(w, es, io).w.links
    ensures k <= Position(es, id) ==> (id in Before(w, es, io, k).links <==> id in ReadableLoop(w, es, io).w.links)
  {
    hide ReadableLoop, WritableLoop;
    LegalAfterReads(w, es, io);
    var p := ReadableLoop(w, es, io);
    assert ReadsDone(p.es[..k]);
    WritableFrame(p.w, p.es[..k], io, id);
    assert forall i :: 0 <= i < k ==> p.es[..k][i].id == es[i].id;
  }

  /** After its entry, a device has its link unless its late write was refused. */
  lemma LateLink(w: World, es: seq<Entry>, io: IO, id: Id, from: Id, k: nat)
    requires LegalEntries(w, es) && Cleared(w) && Exists(w.topo, id) && Source(w.topo, id) == Some(from)
    requires Received(w, es, io, from) != [] && id in w.links && Position(es, id) < k <= |es|
    ensures id in Before(w, es, io, k).links <==>
              && id in ReadableLoop(w, es, io).w.links
              && !(FiredWritable(es, id) && from in Before(w, es, io, Position(es, id)).links
                   && Refuses(io.late(w.links[id].fd)))
  {
    hide ReadableLoop, WritableLoop, Late;
    LegalAfterReads(w, es, io);
    ReadableEffect(w, es, io, id);
    var p, part := ReadableLoop(w, es, io), ReadableLoop(w, es, io).es[..k];
    assert ReadsDone(part) && DistinctIds(part);
    WritableSurvival(p.w, part, io, id);
    LateInPrefix(p.w, p.es, k, io, id);
    LateExact(w, es, io, id);
    OfferTaken(w.cycle, id, from, Received(w, es, io, from), io.late(w.links[id].fd));
  }

  lemma LateInPrefix(w: World, es: seq<Entry>, k: nat, io: IO, id: Id)
    requires Exists(w.topo, id) && Position(es, id) < k <= |es|
    ensures Late(w, es[..k], io, id) == Late(w, es, io, id)
  {
    hide WritableLoop;
    var j := Position(es, id);
    PositionInPrefix(es, k, id);
    assert es[..k][..j] == es[..j] && es[..k][j] == es[j];
  }

  lemma {:induction false} PositionInPrefix(es: seq<Entry>, k: nat, id: Id)
    requires Position(es, id) < k <= |es|
    ensures Position(es[..k], id) == Position(es, id)
  {
    assert es[..k][Position(es, id)].id == id;
    assert forall i :: 0 <= i < Position(es, id) ==> es[..k][i].id != id;
  }

  /** What a virtual that is not a writer gets, once it fires: the chunk, if its master still has its link then. */
  lemma VirtualGets(w: World, es: seq<Entry>, io: IO, m: nat, v: nat)
    requires LegalEntries(w, es) && Cleared(w) && Exists(w.topo, Virtual(m, v)) && !w.topo[m][v]
    requires Virtual(m, v) in w.links && FiredWritable(es, Virtual(m, v))
    ensures var id, master := Virtual(m, v), Master(m);
            && WritesTo(FilePhase(w, es, io).log, id) == WritesTo(w.log, id)
                 + if master in Before(w, es, io, Position(es, id)).links
                   then Offer(w.cycle, id, master, Received(w, es, io, master), io.late(w.links[id].fd)) else []
  {
    hide ReadableLoop, WritableLoop, Early, Late, FilePhase;
    var id := Virtual(m, v);
    PassEffect(w, es, io, id);
    NonWriterKeepsLink(w, es, io, id);
    LateExact(w, es, io, id);
    LegalAfterReads(w, es, io);
    ReadableEffect(w, es, io, id);
  }

  // ---------- no risk: every order delivers the same ----------

  lemma PositionsDiffer(es: seq<Entry>, a: Id, b: Id)
    requires a != b && Position(es, a) < |es|
    ensures Position(es, a) != Position(es, b)
  {
  }

  /** Without that risk the master outlives the pass. */
  lemma MasterSafe(w: World, es: seq<Entry>, io: IO, m: nat)
    requires LegalEntries(w, es) && Cleared(w) && Exists(w.topo, Master(m)) && !AtRisk(w, es, io, m)
    requires Received(w, es, io, Master(m)) != []
    ensures Master(m) in FilePhase(w, es, io).links
  {
    hide ReadableLoop, WritableLoop, Early, Late, FilePhase, PassWrites;
    var master := Master(m);
    ReceivedFired(w, es, io, master);
    if Writable(w, es, io, master) || Source(w.topo, master).None?
       || Received(w, es, io, Source(w.topo, master).value) == [] {
      if Writable(w, es, io, master) {
        WritableTaken(w, es, io, master);
      } else {
        PassOffers(w, es, io, master);
      }
      LinkSurvival(w, es, io, master);
    } else {
      WriterGone(w, es, io, m);
      LateLink(w, es, io, master, Source(w.topo, master).value, |es|);
      WholePass(w, es, io);
    }
  }

  lemma WholePass(w: World, es: seq<Entry>, io: IO)
    ensures Before(w, es, io, |es|) == FilePhase(w, es, io)
  {
    var p := ReadableLoop(w, es, io);
    assert p.es[..|es|] == p.es;
  }

  /** When only the late write of the master would be refused, its writer has lost its link before it is made. */
  lemma WriterGone(w: World, es: seq<Entry>, io: IO, m: nat)
    requires LegalEntries(w, es) && Cleared(w) && Exists(w.topo, Master(m)) && !AtRisk(w, es, io, m)
    requires Source(w.topo, Master(m)).Some? && !Writable(w, es, io, Master(m))
    requires Received(w, es, io, Master(m)) != [] && Received(w, es, io, Source(w.topo, Master(m)).value) != []
    ensures Master(m) in ReadableLoop(w, es, io).w.links
    ensures Source(w.topo, Master(m)).value !in Before(w, es, io, Position(es, Master(m))).links
  {
    hide ReadableLoop, Before;
    var a, b := Master(m), Source(w.topo, Master(m)).value;
    FirstWriterIsFirst(w.topo[m]);
    assert Paired(w, es, io, a, b) && Paired(w, es, io, b, a);
    ReceivedFired(w, es, io, a);
    ReceivedFired(w, es, io, b);
    PositionsDiffer(es, a, b);
    NotYet(w, es, io, b, Position(es, a));
    if Position(es, a) < Position(es, b) {
      PairReads(w, es, io, a, b);
    } else {
      PairReads(w, es, io, b, a);
      NotYet(w, es, io, a, Position(es, b));
      LateLink(w, es, io, b, a, Position(es, a));
    }
  }

  /** Then the virtual is served whatever the order. */
  lemma SafeDelivery(w: World, es: seq<Entry>, io: IO, m: nat, v: nat)
    requires LegalEntries(w, es) && Cleared(w) && Exists(w.topo, Virtual(m, v)) && !w.topo[m][v]
    requires !OrderMatters(w, es, io, m, v)
    ensures WritesTo(FilePhase(w, es, io).log, Virtual(m, v)) == WritesTo(w.log, Virtual(m, v))
              + if Virtual(m, v) in w.links && FiredWritable(es, Virtual(m, v))
                then Offer(w.cycle, Virtual(m, v), Master(m), Received(w, es, io, Master(m)),
                           io.late(w.links[Virtual(m, v)].fd))
                else []
  {
    hide ReadableLoop, WritableLoop, Early, Late, FilePhase, PassWrites, AtRisk;
    var id := Virtual(m, v);
    if Received(w, es, io, Master(m)) == [] {
      PassOffers(w, es, io, id);
      PassEffect(w, es, io, id);
    } else if id in w.links && FiredWritable(es, id) {
      MasterSafe(w, es, io, m);
      ReadBeforeWrite(w, es, io, m, v);
    } else {
      NoneWritten(w, es, io, id);
      PassEffect(w, es, io, id);
    }
  }

  lemma NoneWritten(w: World, es: seq<Entry>, io: IO, id: Id)
    requires LegalEntries(w, es) && Cleared(w) && Exists(w.topo, id) && (id !in w.links || !FiredWritable(es, id))
    ensures PassWrites(w, es, io, id) == []
  {
    FiredAt(es, id);
    LegalAfterReads(w, es, io);
  }

  // ---------- permutations ----------

  /** The array with the entry of a device moved to the front. */
  function Bring(es: seq<Entry>, id: Id): seq<Entry> {
    var k := Position(es, id);
    if k < |es| then [es[k]] + es[..k] + es[k + 1..] else es
  }

  lemma PositionIs(es: seq<Entry>, k: nat)
    requires DistinctIds(es) && k < |es|
    ensures Position(es, es[k].id) == k
  {
  }

  lemma BroughtAt(es: seq<Entry>, id: Id, i: nat)
    requires Position(es, id) < |es| && i < |es|
    ensures var k, es' := Position(es, id), Bring(es, id);
            |es'| == |es| && es'[i] == if i == 0 then es[k] else if i <= k then es[i - 1] else es[i]
  {
    hide Position;
  }

  lemma BroughtSame(es: seq<Entry>, id: Id)
    requires Position(es, id) < |es|
    ensures multiset(Bring(es, id)) == multiset(es)
  {
    hide Position;
    var k := Position(es, id);
    assert es == es[..k] + [es[k]] + es[k + 1..];
  }

  lemma BroughtEntries(es: seq<Entry>, id: Id)
    requires DistinctIds(es) && Position(es, id) < |es|
    ensures var es' := Bring(es, id);
            |es'| == |es| && multiset(es') == multiset(es) && es'[0].id == id && DistinctIds(es')
  {
    hide Position, Bring;
    var k, es' := Position(es, id), Bring(es, id);
    BroughtSame(es, id);
    BroughtAt(es, id, 0);
    forall i, j | 0 <= i < j < |es'| ensures es'[i].id != es'[j].id {
      BroughtAt(es, id, i);
      BroughtAt(es, id, j);
    }
  }

  lemma Brought(es: seq<Entry>, id: Id, other: Id)
    requires DistinctIds(es) && Position(es, id) < |es| && other != id && Position(es, other) < |es|
    ensures Position(Bring(es, id), other)
              == if Position(es, other) < Position(es, id) then Position(es, other) + 1 else Position(es, other)
  {
    hide Position, Bring, DistinctIds;
    BroughtEntries(es, id);
    var j, k := Position(es, other), Position(es, id);
    var i := if j < k then j + 1 else j;
    assert j != k;
    BroughtAt(es, id, i);
    assert Bring(es, id)[i] == es[j];
    PositionIs(Bring(es, id), i);
  }

  lemma CountOnce(es: seq<Entry>, i: nat)
    requires DistinctIds(es) && i < |es|
    ensures multiset(es)[es[i]] == 1
  {
    assert es == es[..i] + [es[i]] + es[i + 1..];
    assert es[i] !in es[..i] && es[i] !in es[i + 1..];
  }

  lemma CountTwice(es: seq<Entry>, i: nat, j: nat)
    requires i < j < |es| && es[i] == es[j]
    ensures multiset(es)[es[i]] >= 2
  {
    assert es == es[..j] + [es[j]] + es[j + 1..];
    assert es[i] == es[..j][i];
    assert es[i] in multiset(es[..j]);
  }

  /** A permutation of what epoll may return is something epoll may return. */
  lemma PermutedLegal(w: World, es: seq<Entry>, es': seq<Entry>)
    requires LegalEntries(w, es) && multiset(es) == multiset(es')
    ensures LegalEntries(w, es')
  {
    forall e | e in es' ensures e in es {
      assert e in multiset(es');
    }
    forall i, j | 0 <= i < j < |es'| ensures es'[i].id != es'[j].id {
      if es'[i].id == es'[j].id {
        assert es'[i] in es && es'[j] in es;
        var k :| 0 <= k < |es| && es[k] == es'[i];
        assert es'[i] == es'[j];
        CountTwice(es', i, j);
        CountOnce(es, k);
      }
    }
    forall i | 0 <= i < |es'|
      ensures SlotMask(w, es'[i].id) != AE_NONE && (es'[i].mask.readable ==> SlotMask(w, es'[i].id).readable)
    {
      assert es'[i] in es;
    }
  }

  /** The array with three devices in front. */
  function Front(es: seq<Entry>, a: Id, b: Id, c: Id): seq<Entry> {
    Bring(Bring(Bring(es, c), b), a)
  }

  lemma FrontPlaces(w: World, es: seq<Entry>, a: Id, b: Id, c: Id)
    requires LegalEntries(w, es) && a != b && b != c && a != c
    requires Position(es, a) < |es| && Position(es, b) < |es| && Position(es, c) < |es|
    ensures var es' := Front(es, a, b, c);
            && LegalEntries(w, es') && multiset(es') == multiset(es) && |es'| == |es|
            && Position(es', a) == 0 && Position(es', b) == 1 && Position(es', c) == 2
  {
    hide Bring, LegalEntries;
    LegalDistinct(w, es);
    BroughtEntries(es, c);
    var one := Bring(es, c);
    AtFront(one, c);
    Brought(es, c, a);
    Brought(es, c, b);
    BroughtEntries(one, b);
    var two := Bring(one, b);
    AtFront(two, b);
    Brought(one, b, a);
    Brought(one, b, c);
    BroughtEntries(two, a);
    AtFront(Bring(two, a), a);
    Brought(two, a, b);
    Brought(two, a, c);
    PermutedLegal(w, es, Front(es, a, b, c));
  }

  lemma LegalDistinct(w: World, es: seq<Entry>)
    requires LegalEntries(w, es)
    ensures DistinctIds(es)
  {
  }

  // ---------- at risk: two orders that deliver differently ----------

  lemma RiskCarries(w: World, es: seq<Entry>, es': seq<Entry>, io: IO, m: nat)
    requires Exists(w.topo, Master(m)) && multiset(es) == multiset(es')
    ensures AtRisk(w, es, io, m) <==> AtRisk(w, es', io, m)
    ensures Received(w, es, io, Master(m)) == Received(w, es', io, Master(m))
  {
    SameFired(es, es', Master(m));
    if Source(w.topo, Master(m)).Some? {
      SameFired(es, es', Source(w.topo, Master(m)).value);
    }
  }

  /** With the virtual first, then its master, it is served. */
  lemma ServedFirst(w: World, es: seq<Entry>, io: IO, m: nat, v: nat)
    requires LegalEntries(w, es) && Cleared(w) && Exists(w.topo, Virtual(m, v)) && !w.topo[m][v]
    requires OrderMatters(w, es, io, m, v) && Position(es, Virtual(m, v)) == 0
    requires Position(es, Master(m)) < Position(es, Source(w.topo, Master(m)).value)
    ensures Master(m) in Before(w, es, io, Position(es, Virtual(m, v))).links
  {
    hide ReadableLoop, Before, LegalEntries;
    var a, b := Master(m), Source(w.topo, Master(m)).value;
    FirstWriterIsFirst(w.topo[m]);
    assert Paired(w, es, io, a, b);
    PairReads(w, es, io, a, b);
    NotYet(w, es, io, a, 0);
  }

  /** Whether its writer is better put before or after a master at risk, to make it lose its link. */
  ghost predicate WriterFirst(w: World, es: seq<Entry>, io: IO, m: nat)
    requires Exists(w.topo, Master(m)) && AtRisk(w, es, io, m)
  {
    var x, writer := w.links[Master(m)].fd, Source(w.topo, Master(m)).value;
    Refuses(io.early(x)) || (FiredWritable(es, writer) && Refuses(io.early(w.links[writer].fd)))
  }

  /** With the master and its writer in front, in that order, the virtual comes too late. */
  lemma ServedTooLate(w: World, es: seq<Entry>, io: IO, m: nat, v: nat)
    requires LegalEntries(w, es) && Cleared(w) && Exists(w.topo, Virtual(m, v)) && !w.topo[m][v]
    requires OrderMatters(w, es, io, m, v) && Position(es, Virtual(m, v)) == 2 <= |es|
    requires var a, b := Master(m), Source(w.topo, Master(m)).value;
             if WriterFirst(w, es, io, m) then Position(es, b) == 0 && Position(es, a) == 1
             else Position(es, a) == 0 && Position(es, b) == 1
    ensures Master(m) !in Before(w, es, io, Position(es, Virtual(m, v))).links
  {
    hide ReadableLoop, Before, LegalEntries;
    var a, b := Master(m), Source(w.topo, Master(m)).value;
    FirstWriterIsFirst(w.topo[m]);
    assert Paired(w, es, io, a, b) && Paired(w, es, io, b, a);
    NotYet(w, es, io, a, 2);
    if WriterFirst(w, es, io, m) {
      PairReads(w, es, io, b, a);
      NotYet(w, es, io, b, 0);
      NotYet(w, es, io, a, 0);
      LateLink(w, es, io, b, a, 1);
      LateLink(w, es, io, a, b, 2);
    } else {
      PairReads(w, es, io, a, b);
      NotYet(w, es, io, b, 0);
      LateLink(w, es, io, a, b, 2);
    }
  }

  /** Two permutations that deliver differently. */
  lemma TwoOrders(w: World, es: seq<Entry>, io: IO, m: nat, v: nat) returns (es1: seq<Entry>, es2: seq<Entry>)
    requires LegalEntries(w, es) && Cleared(w) && Exists(w.topo, Virtual(m, v)) && !w.topo[m][v]
    requires OrderMatters(w, es, io, m, v)
    ensures multiset(es1) == multiset(es) && multiset(es2) == multiset(es)
    ensures WritesTo(FilePhase(w, es1, io).log, Virtual(m, v)) != WritesTo(FilePhase(w, es2, io).log, Virtual(m, v))
  {
    hide ReadableLoop, Before, LegalEntries, FilePhase, Bring;
    var id, a, b := Virtual(m, v), Master(m), Source(w.topo, Master(m)).value;
    FirstWriterIsFirst(w.topo[m]);
    LegalDistinct(w, es);
    FiredAt(es, id);
    ReceivedFired(w, es, io, a);
    ReceivedFired(w, es, io, b);
    es1 := Front(es, id, a, b);
    FrontPlaces(w, es, id, a, b);
    es2 := if WriterFirst(w, es, io, m) then Front(es, b, a, id) else Front(es, a, b, id);
    FrontPlaces(w, es, b, a, id);
    FrontPlaces(w, es, a, b, id);
    RiskCarries(w, es, es1, io, m);
    RiskCarries(w, es, es2, io, m);
    SameFired(es, es1, id);
    SameFired(es, es2, id);
    SameFired(es, es2, b);
    ServedFirst(w, es1, io, m, v);
    ServedTooLate(w, es2, io, m, v);
    VirtualGets(w, es1, io, m, v);
    VirtualGets(w, es2, io, m, v);
  }

  /**
   What a virtual that is not a writer is offered in a pass is the same for every permutation of the fired array if and
   only if it is not linked and fired writable together with a master at risk.
   */
  lemma OrderExact(w: World, es: seq<Entry>, io: IO, m: nat, v: nat)
    requires LegalEntries(w, es) && Cleared(w) && Exists(w.topo, Virtual(m, v)) && !w.topo[m][v]
    ensures (forall es': seq<Entry> :: multiset(es') == multiset(es) ==>
               WritesTo(FilePhase(w, es', io).log, Virtual(m, v)) == WritesTo(FilePhase(w, es, io).log, Virtual(m, v)))
            <==> !OrderMatters(w, es, io, m, v)
  {
    hide LegalEntries, FilePhase, AtRisk;
    var id := Virtual(m, v);
    if OrderMatters(w, es, io, m, v) {
      var es1, es2 := TwoOrders(w, es, io, m, v);
    } else {
      SafeDelivery(w, es, io, m, v);
      forall es': seq<Entry> | multiset(es') == multiset(es)
        ensures WritesTo(FilePhase(w, es', io).log, id) == WritesTo(FilePhase(w, es, io).log, id)
      {
        PermutedLegal(w, es, es');
        RiskCarries(w, es, es', io, m);
        SameFired(es, es', id);
        SafeDelivery(w, es', io, m, v);
      }
    }
  }

  /** So no order matters in a pass in which no write to its master is refused, whatever else fails. */
  lemma OrderIrrelevant(w: World, es: seq<Entry>, es': seq<Entry>, io: IO, m: nat, v: nat)
    requires LegalEntries(w, es) && multiset(es') == multiset(es)
    requires Cleared(w) && Exists(w.topo, Virtual(m, v)) && !w.topo[m][v] && Writable(w, es, io, Master(m))
    ensures WritesTo(FilePhase(w, es', io).log, Virtual(m, v)) == WritesTo(FilePhase(w, es, io).log, Virtual(m, v))
  {
    hide LegalEntries, FilePhase;
    OrderExact(w, es, io, m, v);
  }

  lemma AtFront(es: seq<Entry>, id: Id)
    requires es != [] && es[0].id == id
    ensures Position(es, id) == 0
  {
  }
}
