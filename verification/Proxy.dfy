/**
 The data plane of the proxy as a state machine: what one turn of the event loop does to the links of the
 serial devices (src/serial.c) under the dispatch order of src/ae.c.

 A device is named by its place in the lists: Master(m), or Virtual(m, v) for the v-th virtual of master m.
 The kernel is an environment: it chooses what fires, what a read returns, how much of a write it takes, and
 which descriptors it hands out.
 */
module Proxy {
  import opened Options
  import opened Masks

  const BUFSIZ: nat := 8192

  newtype Byte = x: int | 0 <= x < 256

  type Chunk = s: seq<Byte> | 0 < |s| <= BUFSIZ witness [0]

  type Buffer = s: seq<Byte> | |s| == BUFSIZ witness seq(BUFSIZ, _ => 0)

  /** The receive buffer that calloc leaves. */
  function Zeros(): (b: Buffer)
    ensures forall i :: 0 <= i < BUFSIZ ==> b[i] == 0
  {
    seq(BUFSIZ, _ => 0)
  }

  type Count = n: nat | n <= BUFSIZ

  datatype Id = Master(m: nat) | Virtual(m: nat, v: nat)

  /** For each master, in list order, the writer flags of its virtuals, in list order. */
  type Topology = seq<seq<bool>>

  datatype Link = Link(fd: nat, buf: Buffer, len: Count, registered: bool) {
    /** The received bytes not yet cleared: recvbuf[..recvbuflen]. */
    function Pending(): seq<Byte> { buf[..len] }
  }

  /** accepted is what write returned, and 0 stands for a failure. */
  datatype Event =
    | Read(cycle: nat, id: Id, chunk: Chunk)
    | Write(cycle: nat, to: Id, from: Id, offered: seq<Byte>, accepted: nat)

  datatype World = World(
    topo: Topology, setsize: nat, links: map<Id, Link>, cycle: nat, log: seq<Event>,
    // A handler went on to use a link that it had just freed.
    fault: bool)

  datatype ReadResult = Got(chunk: Chunk) | Again | Fail

  datatype WriteResult = Took(n: nat) | Refused

  /** Results by descriptor: of a read, and of a write made in the readable and in the writable loop. */
  datatype IO = IO(read: nat -> ReadResult, early: nat -> WriteResult, late: nat -> WriteResult)

  datatype Connection = Failed | Opened(fd: nat, refused: bool)

  /** A fired event; the descriptor is given by the device that held it when it was polled. */
  datatype Entry = Entry(id: Id, mask: Mask)

  // ---------- configuration ----------

  predicate Exists(topo: Topology, id: Id) {
    && id.m < |topo|
    && (id.Virtual? ==> id.v < |topo[id.m]|)
  }

  /** serialGetVirtualWriterNode: the first flagged virtual in list order. */
  function FirstWriter(flags: seq<bool>): Option<nat> {
    if flags == [] then None
    else if flags[0] then Some(0)
    else match FirstWriter(flags[1..])
         case None => None
         case Some(k) => Some(k + 1)
  }

  /** _serialEventFlags. */
  function Flags(topo: Topology, id: Id): Mask
    requires Exists(topo, id)
  {
    match id
    case Master(m) => Mask(true, FirstWriter(topo[m]).Some?)
    case Virtual(m, v) => Mask(topo[m][v], true)
  }

  /** The device whose received bytes are written to id. */
  function Source(topo: Topology, id: Id): Option<Id>
    requires Exists(topo, id)
  {
    match id
    case Virtual(m, _) => Some(Master(m))
    case Master(m) => match FirstWriter(topo[m])
                      case None => None
                      case Some(w) => Some(Virtual(m, w))
  }

  lemma {:induction false} FirstWriterIsFirst(flags: seq<bool>)
    ensures FirstWriter(flags) == None <==> forall k :: 0 <= k < |flags| ==> !flags[k]
    ensures FirstWriter(flags).Some? ==>
              var w := FirstWriter(flags).value;
              w < |flags| && flags[w] && forall k :: 0 <= k < w ==> !flags[k]
  {
    if flags != [] && !flags[0] {
      FirstWriterIsFirst(flags[1..]);
      assert forall k :: 1 <= k < |flags| ==> flags[k] == flags[1..][k - 1];
    }
  }

  // ---------- handlers ----------

  function BeforeSleep(w: World): World {
    w.(links := map id | id in w.links :: w.links[id].(len := 0), cycle := w.cycle + 1)
  }

  function FreeLink(w: World, id: Id): World {
    w.(links := w.links - {id})
  }

  function ReadHandler(w: World, id: Id, r: ReadResult): World
    requires id in w.links
  {
    match r
    case Got(chunk) =>
      var link := w.links[id];
      w.(links := w.links[id := link.(buf := chunk + link.buf[|chunk|..], len := |chunk|)],
         log := w.log + [Read(w.cycle, id, chunk)])
    case Again => w
    case Fail => FreeLink(w, id)
  }

  function Accepted(r: WriteResult, offered: seq<Byte>): nat {
    match r
    case Took(n) => if n < |offered| then n else |offered|
    case Refused => 0
  }

  function WriteLink(w: World, from: Id, to: Id, r: WriteResult): World {
    if from in w.links && w.links[from].len > 0 then
      var offered := w.links[from].Pending();
      var n := Accepted(r, offered);
      var w' := w.(log := w.log + [Write(w.cycle, to, from, offered, n)]);
      if n == 0 then FreeLink(w', to) else w'
    else w
  }

  function WriteHandler(w: World, id: Id, r: WriteResult): World
    requires Exists(w.topo, id)
  {
    match Source(w.topo, id)
    case None => w
    case Some(from) => WriteLink(w, from, id, r)
  }

  /** _serialEventHandler: the write part goes on even when the read part has just freed the link. */
  function Handle(w: World, id: Id, mask: Mask, rd: ReadResult, wr: WriteResult): World
    requires Exists(w.topo, id) && id in w.links
  {
    var w1 := if mask.readable then ReadHandler(w, id, rd) else w;
    if mask.writable then
      if id in w1.links then WriteHandler(w1, id, wr) else w1.(fault := true)
    else w1
  }

  // ---------- the two dispatch loops ----------

  /** The mask in the table slot of the descriptor that id held when it was polled. */
  function SlotMask(w: World, id: Id): Mask {
    if id in w.links && Exists(w.topo, id) && w.links[id].registered then Flags(w.topo, id) else AE_NONE
  }

  datatype Progress = Progress(w: World, es: seq<Entry>)

  function ReadableStep(w: World, e: Entry, io: IO): World {
    if SlotMask(w, e.id).And(e.mask).readable
    then var fd := w.links[e.id].fd; Handle(w, e.id, e.mask, io.read(fd), io.early(fd))
    else w
  }

  /** The readable loop over a fired array: the state it leaves and the masks it leaves in the array. */
  function ReadableLoop(w: World, es: seq<Entry>, io: IO): (p: Progress)
    ensures |p.es| == |es|
  {
    if es == [] then Progress(w, [])
    else
      var p := ReadableLoop(w, es[..|es| - 1], io);
      var e := es[|es| - 1];
      Progress(ReadableStep(p.w, e, io),
               p.es + [if SlotMask(p.w, e.id).And(e.mask).readable
                       then e.(mask := e.mask.Minus(AE_READABLE)) else e])
  }

  function WritableStep(w: World, e: Entry, io: IO): World {
    if SlotMask(w, e.id).And(e.mask).writable
    then var fd := w.links[e.id].fd; Handle(w, e.id, e.mask, io.read(fd), io.late(fd))
    else w
  }

  function WritableLoop(w: World, es: seq<Entry>, io: IO): World {
    if es == [] then w
    else WritableStep(WritableLoop(w, es[..|es| - 1], io), es[|es| - 1], io)
  }

  /** One pass over the fired array: all reads before the writes of the second loop. */
  function FilePhase(w: World, es: seq<Entry>, io: IO): World {
    var p := ReadableLoop(w, es, io);
    WritableLoop(p.w, p.es, io)
  }

  // ---------- reconnection and whole runs ----------

  function Connect(w: World, id: Id, c: Connection): World {
    match c
    case Failed => w
    case Opened(fd, refused) =>
      w.(links := w.links[id := Link(fd, Zeros(), 0, fd < w.setsize && !refused)])
  }

  function ConnectIfDown(w: World, id: Id, kernel: Id -> Connection): (w': World)
    ensures w'.topo == w.topo
  {
    if id in w.links then w else Connect(w, id, kernel(id))
  }

  function ReconnectVirtuals(w: World, m: nat, count: nat, kernel: Id -> Connection): (w': World)
    ensures w'.topo == w.topo
  {
    if count == 0 then w
    else ConnectIfDown(ReconnectVirtuals(w, m, count - 1, kernel), Virtual(m, count - 1), kernel)
  }

  function ReconnectMaster(w: World, m: nat, kernel: Id -> Connection): World
    requires m < |w.topo|
  {
    var w1 := ConnectIfDown(w, Master(m), kernel);
    if Master(m) in w1.links then ReconnectVirtuals(w1, m, |w.topo[m]|, kernel) else w1
  }

  /** _serialReconnect over the first count masters. */
  function Reconnect(w: World, count: nat, kernel: Id -> Connection): (w': World)
    requires count <= |w.topo|
    ensures w'.topo == w.topo
  {
    if count == 0 then w
    else ReconnectMaster(Reconnect(w, count - 1, kernel), count - 1, kernel)
  }

  lemma {:induction false} ReconnectVirtualsKeeps(w: World, m: nat, count: nat, kernel: Id -> Connection)
    ensures var w' := ReconnectVirtuals(w, m, count, kernel);
            && w' == w.(links := w'.links)
            && (forall id :: id in w.links ==> id in w'.links && w'.links[id] == w.links[id])
            && (forall id :: id in w'.links && id !in w.links ==>
                  id.Virtual? && id.m == m && id.v < count && kernel(id).Opened? && w'.links[id].fd == kernel(id).fd
                  && w'.links[id].len == 0
                  && (w'.links[id].registered <==> kernel(id).fd < w.setsize && !kernel(id).refused))
            && (forall v :: 0 <= v < count && kernel(Virtual(m, v)).Opened? ==> Virtual(m, v) in w'.links)
  {
    if count > 0 {
      ReconnectVirtualsKeeps(w, m, count - 1, kernel);
    }
  }

  lemma ReconnectKeeps(w: World, m: nat, kernel: Id -> Connection)
    requires m < |w.topo|
    ensures var w' := ReconnectMaster(w, m, kernel);
            && w' == w.(links := w'.links)
            && (forall id :: id in w.links ==> id in w'.links && w'.links[id] == w.links[id])
            && (forall id :: id in w'.links && id !in w.links ==>
                  Exists(w.topo, id) && id.m == m && kernel(id).Opened? && w'.links[id].fd == kernel(id).fd
                  && w'.links[id].len == 0
                  && (w'.links[id].registered <==> kernel(id).fd < w.setsize && !kernel(id).refused))
            && (Master(m) in w'.links <==> Master(m) in w.links || kernel(Master(m)).Opened?)
            && (forall v :: 0 <= v < |w.topo[m]| ==>
                  (Virtual(m, v) in w'.links <==>
                    Virtual(m, v) in w.links
                    || (Master(m) in w'.links && kernel(Virtual(m, v)).Opened?)))
  {
    var w1 := ConnectIfDown(w, Master(m), kernel);
    ReconnectVirtualsKeeps(w1, m, |w.topo[m]|, kernel);
  }

  /**
   Reconnection connects exactly the masters that were up or could be opened, and the virtuals of those masters
   alone; links that were up keep their descriptor, buffer and registration; new links hold no bytes, and are registered
   unless their descriptor does not fit the table or epoll refuses it.
   */
  lemma {:induction false} ReconnectExact(w: World, count: nat, kernel: Id -> Connection)
    requires count <= |w.topo|
    ensures var w' := Reconnect(w, count, kernel);
            && w' == w.(links := w'.links)
            && (forall id :: id in w.links ==> id in w'.links && w'.links[id] == w.links[id])
            && (forall id :: id in w'.links && id !in w.links ==>
                  Exists(w.topo, id) && id.m < count && kernel(id).Opened? && w'.links[id].fd == kernel(id).fd
                  && w'.links[id].len == 0
                  && (w'.links[id].registered <==> kernel(id).fd < w.setsize && !kernel(id).refused))
            && (forall m :: 0 <= m < count ==>
                  (Master(m) in w'.links <==> Master(m) in w.links || kernel(Master(m)).Opened?))
            && (forall m, v :: 0 <= m < count && 0 <= v < |w.topo[m]| ==>
                  (Virtual(m, v) in w'.links <==>
                    Virtual(m, v) in w.links
                    || (Master(m) in w'.links && kernel(Virtual(m, v)).Opened?)))
  {
    hide ReconnectMaster;
    if count > 0 {
      ReconnectExact(w, count - 1, kernel);
      ReconnectKeeps(Reconnect(w, count - 1, kernel), count - 1, kernel);
    }
  }

  /** The kernel hands out descriptors that are not open, each of them once. */
  ghost predicate FreshFds(w: World, kernel: Id -> Connection) {
    && (forall a, b :: a in w.links && kernel(b).Opened? ==> w.links[a].fd != kernel(b).fd)
    && (forall a, b :: a != b && kernel(a).Opened? && kernel(b).Opened? ==> kernel(a).fd != kernel(b).fd)
  }

  ghost predicate WellFormed(w: World) {
    && (forall id :: id in w.links ==> Exists(w.topo, id))
    && (forall a, b :: a in w.links && b in w.links && w.links[a].fd == w.links[b].fd ==> a == b)
  }

  /** What epoll may have returned: distinct registered descriptors, readable only if that was asked for. */
  ghost predicate LegalEntries(w: World, es: seq<Entry>) {
    && (forall i, j :: 0 <= i < j < |es| ==> es[i].id != es[j].id)
    && (forall i :: 0 <= i < |es| ==>
          && SlotMask(w, es[i].id) != AE_NONE
          && (es[i].mask.readable ==> SlotMask(w, es[i].id).readable))
  }

  /** One turn of aeMain; the timer phase either reconnects or leaves the links alone. */
  datatype Turn = Turn(es: seq<Entry>, io: IO, reconnect: Option<Id -> Connection>)

  function TimerPhase(w: World, reconnect: Option<Id -> Connection>): World {
    match reconnect
    case None => w
    case Some(kernel) => Reconnect(w, |w.topo|, kernel)
  }

  function OneTurn(w: World, t: Turn): World {
    TimerPhase(FilePhase(BeforeSleep(w), t.es, t.io), t.reconnect)
  }

  ghost predicate LegalTurn(w: World, t: Turn) {
    && LegalEntries(BeforeSleep(w), t.es)
    && (t.reconnect.Some? ==> FreshFds(FilePhase(BeforeSleep(w), t.es, t.io), t.reconnect.value))
  }

  function Run(w: World, ts: seq<Turn>): World {
    if ts == [] then w else OneTurn(Run(w, ts[..|ts| - 1]), ts[|ts| - 1])
  }

  ghost predicate LegalRun(w: World, ts: seq<Turn>) {
    ts != [] ==> LegalRun(w, ts[..|ts| - 1]) && LegalTurn(Run(w, ts[..|ts| - 1]), ts[|ts| - 1])
  }

  /** The state before serialInit has connected anything. */
  function Start(topo: Topology, setsize: nat): World {
    World(topo, setsize, map[], 0, [], false)
  }
}
