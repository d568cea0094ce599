/** Small legal passes, from connected devices, in which the less expected behaviours do happen. */
module Witnesses {
  import opened Masks
  import opened Options
  import opened Proxy
  import opened Delivery
  import opened DeliveryTheorems
  import opened RunTheorems

  /** Descriptors 3, 4 and 5 for a master and its two virtuals. */
  function Kernel(id: Id): Connection {
    match id
    case Master(m) => if m == 0 then Opened(3, false) else Failed
    case Virtual(m, v) => if m == 0 && v < 2 then Opened(4 + v, false) else Failed
  }

  function Both(): Mask { Mask(true, true) }

  /** One master with two virtuals, as serialInit leaves them; the flags say which virtual may write. */
  function Connected(first: bool, second: bool): World {
    Proxy.Reconnect(Start([[first, second]], 10), 1, Kernel)
  }

  lemma Links(first: bool, second: bool)
    ensures FreshFds(Start([[first, second]], 10), Kernel)
    ensures var w, v0, v1 := Connected(first, second), Virtual(0, 0), Virtual(0, 1);
            && w == Start([[first, second]], 10).(links := w.links)
            && w.links == map[Master(0) := Link(3, Zeros(), 0, true), v0 := Link(4, Zeros(), 0, true),
                              v1 := Link(5, Zeros(), 0, true)]
  {
    var w0 := Start([[first, second]], 10);
    assert Proxy.Reconnect(w0, 0, Kernel) == w0;
    var w1 := ConnectIfDown(w0, Master(0), Kernel);
    assert ReconnectVirtuals(w1, 0, 0, Kernel) == w1;
    assert ReconnectVirtuals(w1, 0, 1, Kernel) == ConnectIfDown(w1, Virtual(0, 0), Kernel);
    assert ReconnectVirtuals(w1, 0, 2, Kernel)
        == ConnectIfDown(ReconnectVirtuals(w1, 0, 1, Kernel), Virtual(0, 1), Kernel);
  }

  /** The state in which the first turn polls. */
  lemma Awake(first: bool, second: bool)
    ensures var w0, v0, v1 := Connected(first, second), Virtual(0, 0), Virtual(0, 1);
            var w := BeforeSleep(w0);
            && w0.log == [] && !w0.fault && w0.topo == [[first, second]] && w0.cycle == 0
            && w0.links.Keys == w.links.Keys == {Master(0), v0, v1}
            && w0.links[Master(0)].fd == w.links[Master(0)].fd == 3 && w0.links[v0].fd == w.links[v0].fd == 4
            && Cleared(w) && w.topo == w0.topo && w.log == [] && w.cycle == 1
            && forall id :: id in w.links ==> Exists(w.topo, id) && SlotMask(w, id) == Flags(w.topo, id)
  {
    hide Connected, Proxy.Reconnect;
    Links(first, second);
  }

  /**
   A freed link is used in the first turn after start-up when the master fires both ways and its read fails, whether it
   is registered for writing or only a hang-up is reported.
   */
  lemma FaultReachable(first: bool, second: bool) returns (t: Turn)
    ensures var w := Connected(first, second);
            LegalTurn(w, t) && !w.fault && OneTurn(w, t).fault
  {
    hide Connected, Proxy.Reconnect, Proxy.BeforeSleep, FilePhase, OneTurn, FirstWriter, SlotMask;
    Awake(first, second);
    var w := Connected(first, second);
    t := Turn([Entry(Master(0), Both())], IO(fd => Fail, fd => Refused, fd => Refused), None);
    assert t.es[0].mask.readable && t.es[0].mask.writable && t.es[0].id in w.links;
    assert Master(0) in BeforeSleep(w).links;
    TurnFault(w, t);
  }

  /** The first virtual fires readable, then the master both ways: the chunk of the virtual is written to it twice. */
  lemma WrittenTwice() returns (t: Turn)
    ensures var w, e := Connected(true, false), Write(1, Master(0), Virtual(0, 0), [7], 1);
            && LegalTurn(w, t) && NoErrors(t.io)
            && ReadsOf(OneTurn(w, t).log, Virtual(0, 0)) == [Read(1, Virtual(0, 0), [7])]
            && WritesTo(OneTurn(w, t).log, Master(0)) == [e, e]
  {
    hide Connected, Proxy.Reconnect, Proxy.BeforeSleep, FilePhase, OneTurn, FirstWriter, SlotMask, Source, Flags;
    Awake(true, false);
    FirstIsWriter();
    var w, v0 := Connected(true, false), Virtual(0, 0);
    var io := IO(fd => Got([7]), fd => Took(1), fd => Took(1));
    var es := [Entry(v0, AE_READABLE), Entry(Master(0), Both())];
    t := Turn(es, io, None);
    assert v0 in BeforeSleep(w).links && Master(0) in BeforeSleep(w).links;
    assert LegalEntries(BeforeSleep(w), es);
    FiredTwo(es);
    TurnExact(w, t, Master(0), v0);
    TurnEffect(w, t, v0);
    assert Received(BeforeSleep(w), es, io, v0) == [7];
  }

  lemma FirstIsWriter()
    ensures FirstWriter([true, false]) == Some(0)
    ensures Flags([[true, false]], Master(0)) == Both() && Flags([[true, false]], Virtual(0, 0)) == Both()
    ensures Flags([[true, false]], Virtual(0, 1)) == AE_WRITABLE
    ensures Source([[true, false]], Master(0)) == Some(Virtual(0, 0))
  {
  }

  lemma FiredTwo(es: seq<Entry>)
    requires |es| >= 2 && es[0] == Entry(Virtual(0, 0), AE_READABLE) && es[1] == Entry(Master(0), Both())
    requires forall i :: 2 <= i < |es| ==> es[i].id == Virtual(0, 1)
    ensures Position(es, Virtual(0, 0)) == 0 && Position(es, Master(0)) == 1
    ensures FiredReadable(es, Virtual(0, 0)) && FiredBoth(es, Master(0))
  {
    assert es[0].id == Virtual(0, 0) && es[1].id == Master(0) && es[1].mask.readable && es[1].mask.writable;
  }

  /**
   With a table of five descriptors the second virtual gets the first one that does not fit: it is mute as serialInit
   leaves it, or as a turn does that finds nothing connected; the other devices are not.
   */
  lemma MuteReachable(first: bool, second: bool) returns (t: Turn)
    ensures var w, v1 := Start([[first, second]], 5), Virtual(0, 1);
            && FreshFds(w, Kernel) && Mute(Proxy.Reconnect(w, 1, Kernel), v1)
            && LegalTurn(w, t) && !Mute(w, v1) && MutedBy(w, t, v1)
            && forall id :: Mute(OneTurn(w, t), id) <==> id == v1
  {
    hide Proxy.Reconnect, Mute, FilePhase;
    var w := Start([[first, second]], 5);
    SecondMuted(w);
    t := Turn([], IO(fd => Again, fd => Refused, fd => Refused), Some(Kernel));
    NothingFires(w, t.io);
    SecondMuted(w.(cycle := 1));
  }

  lemma NothingFires(w: World, io: IO)
    requires w.links == map[] && w.cycle == 0
    ensures FilePhase(BeforeSleep(w), [], io) == BeforeSleep(w) == w.(cycle := 1)
  {
  }

  lemma SecondMuted(w: World)
    requires |w.topo| == 1 && |w.topo[0]| == 2 && w.setsize == 5 && w.links == map[]
    ensures FreshFds(w, Kernel) && !Mute(w, Virtual(0, 1))
    ensures forall id :: Mute(Proxy.Reconnect(w, 1, Kernel), id) <==> id == Virtual(0, 1)
  {
    hide Proxy.Reconnect;
    ReconnectExact(w, 1, Kernel);
    assert 0 <= 1 < |w.topo[0]|;
  }

  // ---------- a refused early write makes the order matter ----------

  function Order1(): seq<Entry> {
    [Entry(Virtual(0, 0), AE_READABLE), Entry(Master(0), Both()), Entry(Virtual(0, 1), AE_WRITABLE)]
  }

  function Order2(): seq<Entry> {
    [Entry(Master(0), Both()), Entry(Virtual(0, 0), AE_READABLE), Entry(Virtual(0, 1), AE_WRITABLE)]
  }

  /** Everything can be read and written, but the first of two writes to a descriptor in a pass is refused. */
  function RefusesEarly(): IO {
    IO(fd => Got([7]), fd => Refused, fd => Took(1))
  }

  lemma BothLegal()
    ensures var w := BeforeSleep(Connected(true, false));
            && Cleared(w) && w.topo == [[true, false]] && w.log == [] && w.cycle == 1
            && Master(0) in w.links && Virtual(0, 0) in w.links && Virtual(0, 1) in w.links
            && LegalEntries(w, Order1()) && LegalEntries(w, Order2())
    ensures multiset(Order1()) == multiset(Order2())
  {
    hide Connected, Proxy.BeforeSleep, SlotMask, LegalEntries, Flags, Order1, Order2;
    Awake(true, false);
    var w := BeforeSleep(Connected(true, false));
    assert Master(0) in w.links && Virtual(0, 0) in w.links && Virtual(0, 1) in w.links;
    OrdersLegal(w);
    SameEntries();
  }

  lemma OrdersLegal(w: World)
    requires forall id :: id in {Master(0), Virtual(0, 0), Virtual(0, 1)} ==>
               SlotMask(w, id) == Flags([[true, false]], id)
    ensures LegalEntries(w, Order1()) && LegalEntries(w, Order2())
  {
    hide Flags;
    FirstIsWriter();
  }

  lemma SameEntries()
    ensures multiset(Order1()) == multiset(Order2())
  {
    var a, b, c := Entry(Virtual(0, 0), AE_READABLE), Entry(Master(0), Both()), Entry(Virtual(0, 1), AE_WRITABLE);
    assert multiset(Order1()) == multiset{a, b, c} && multiset(Order2()) == multiset{a, b, c};
  }

  lemma WriterStillThere()
    ensures var w := BeforeSleep(Connected(true, false));
            Virtual(0, 0) in ReadableLoop(w, Order1()[..1], RefusesEarly()).w.links
  {
    BothLegal();
    FirstIsWriter();
    var w, es := BeforeSleep(Connected(true, false)), Order1()[..1];
    assert es == [Entry(Virtual(0, 0), AE_READABLE)] && es[..0] == [];
    assert LegalEntries(w, es) by {
      assert Order1()[0] == es[0];
    }
    ReadableSurvival(w, es, RefusesEarly(), Virtual(0, 0));
  }

  /** After its writer in the array, the master writes early and is refused. */
  lemma MasterLost()
    ensures Master(0) !in ReadableLoop(BeforeSleep(Connected(true, false)), Order1(), RefusesEarly()).w.links
  {
    hide Connected, ReadableLoop, LegalEntries, Proxy.BeforeSleep;
    var w, es, io := BeforeSleep(Connected(true, false)), Order1(), RefusesEarly();
    BothLegal();
    FirstIsWriter();
    FiredTwo(es);
    WriterStillThere();
    EarlyExact(w, es, io, Master(0));
    ReadableSurvival(w, es, io, Master(0));
    assert Early(w, es, io, Master(0)) == Offer(1, Master(0), Virtual(0, 0), [7], Refused);
    assert Early(w, es, io, Master(0))[0].accepted == 0;
  }

  /** So it has no link left for the other virtual. */
  lemma LostInOrder1()
    ensures WritesTo(FilePhase(BeforeSleep(Connected(true, false)), Order1(), RefusesEarly()).log, Virtual(0, 1)) == []
  {
    hide Connected, ReadableLoop, WritableLoop, LegalEntries, Proxy.BeforeSleep, Early, Late, FilePhase;
    var w, es, io := BeforeSleep(Connected(true, false)), Order1(), RefusesEarly();
    BothLegal();
    FirstIsWriter();
    MasterLost();
    var p := ReadableLoop(w, es, io);
    PassEffect(w, es, io, Virtual(0, 1));
    NonWriterKeepsLink(w, es, io, Virtual(0, 1));
    LateExact(w, es, io, Virtual(0, 1));
    LegalAfterReads(w, es, io);
    WritableFrame(p.w, p.es[..Position(es, Virtual(0, 1))], io, Master(0));
  }

  lemma PlacesInOrder2()
    ensures var es := Order2();
            && Position(es, Master(0)) == 0 && Position(es, Virtual(0, 0)) == 1 && Position(es, Virtual(0, 1)) == 2
            && FiredReadable(es, Master(0)) && FiredWritable(es, Master(0)) && FiredReadable(es, Virtual(0, 0))
            && FiredWritable(es, Virtual(0, 1))
  {
    var es := Order2();
    assert es[0].id == Master(0) && es[1].id == Virtual(0, 0) && es[2].id == Virtual(0, 1);
  }

  /** Before its writer, the master has nothing to write early, and keeps its link. */
  lemma MasterKept()
    ensures Master(0) in FilePhase(BeforeSleep(Connected(true, false)), Order2(), RefusesEarly()).links
  {
    hide Connected, ReadableLoop, WritableLoop, LegalEntries, Proxy.BeforeSleep, Early, Late, FilePhase, FirstWriter,
         Position, Order2, FiredReadable, FiredWritable;
    var w, es, io := BeforeSleep(Connected(true, false)), Order2(), RefusesEarly();
    BothLegal();
    FirstIsWriter();
    PlacesInOrder2();
    EarlyExact(w, es, io, Master(0));
    LateExact(w, es, io, Master(0));
    LinkSurvival(w, es, io, Master(0));
  }

  /** The other virtual gets its chunk. */
  lemma DeliveredInOrder2()
    ensures WritesTo(FilePhase(BeforeSleep(Connected(true, false)), Order2(), RefusesEarly()).log, Virtual(0, 1))
              == [Write(1, Virtual(0, 1), Master(0), [7], 1)]
  {
    hide Connected, ReadableLoop, WritableLoop, LegalEntries, Proxy.BeforeSleep, FilePhase, FirstWriter, Position,
         Order2, FiredReadable, FiredWritable;
    BothLegal();
    PlacesInOrder2();
    MasterKept();
    ReadBeforeWrite(BeforeSleep(Connected(true, false)), Order2(), RefusesEarly(), 0, 1);
  }

  /** The two orders of the same fired array: one delivers to the virtual that is not a writer, the other does not. */
  lemma OrderCanMatter()
    ensures var w, id := BeforeSleep(Connected(true, false)), Virtual(0, 1);
            && LegalEntries(w, Order1()) && LegalEntries(w, Order2()) && multiset(Order1()) == multiset(Order2())
            && WritesTo(FilePhase(w, Order1(), RefusesEarly()).log, id)
               != WritesTo(FilePhase(w, Order2(), RefusesEarly()).log, id)
  {
    BothLegal();
    LostInOrder1();
    DeliveredInOrder2();
  }
}
