/**
 serialTerm (src/serial.c) with the memory it gives back. A node or link is reached only through the accessors below,
 which require it to be still allocated: a use after free or a second free would not verify.
 */
module Shutdown {
  import opened Masks
  import opened EventTable
  import opened Proxy
  import opened ProxyServer
  import opened Registry
  import opened SerialNodes

  /** What serialTerm leaves in the slot of a registered device. */
  function Leftover(topo: Topology, id: Id): Mask
    requires Exists(topo, id)
  {
    if id.Master? && FirstWriter(topo[id.m]).Some? then AE_WRITABLE else AE_NONE
  }

  /** The device after id in its list. */
  function Following(id: Id): Id {
    if id.Master? then Master(id.m + 1) else Virtual(id.m, id.v + 1)
  }

  /** Everything that was held is either held still or was given back, once. */
  ghost predicate GivenOnce<T>(all: set<T>, live: set<T>, freed: seq<T>) {
    && (forall x :: x in freed ==> x in all && x !in live)
    && (forall x :: x in all ==> x in live || x in freed)
    && (forall i, j :: 0 <= i < j < |freed| ==> freed[i] != freed[j])
  }

  lemma GivenNext<T>(all: set<T>, live: set<T>, freed: seq<T>, x: T)
    requires GivenOnce(all, live, freed) && x in live && live <= all
    ensures GivenOnce(all, live - {x}, freed + [x])
  {
  }

  class Termination {
    const el: EventLoop<SerialLink>
    const masterHead: SerialNode?
    // The devices when serialTerm was called, with their nodes and links.
    ghost const world: World
    ghost const nodes: set<SerialNode>
    ghost const nodeAt: map<Id, SerialNode>
    ghost const linkAt: map<Id, SerialLink>
    // What is still allocated and open, and what was given back, in order.
    ghost var liveNodes: set<SerialNode>
    ghost var liveLinks: set<SerialLink>
    ghost var open: set<nat>
    ghost var freedNodes: seq<SerialNode>
    ghost var freedLinks: seq<SerialLink>
    ghost var closed: seq<nat>
    // The devices still to be released.
    ghost var pending: set<Id>

    /** What does not change: where the devices were, and what belonged to them. */
    ghost predicate Places() {
      && WellFormed(world)
      && (forall id :: id in nodeAt <==> Exists(world.topo, id))
      && (forall id :: id in nodeAt ==> nodeAt[id] in nodes)
      && (forall a, b :: a in nodeAt && b in nodeAt && nodeAt[a] == nodeAt[b] ==> a == b)
      && (forall id {:trigger nodeAt[id].kind} :: id in nodeAt ==>
            nodeAt[id].kind == if id.Master? then MasterNode else VirtualNode)
      && linkAt.Keys == world.links.Keys
      && (forall a, b :: a in linkAt && b in linkAt && linkAt[a] == linkAt[b] ==> a == b)
      && masterHead == At(nodeAt, Master(0))
    }

    /** Nodes, links and descriptors of the pending devices, and no others, are still held. */
    ghost predicate Memory()
      reads this
    {
      && pending <= nodeAt.Keys
      && (forall id :: id in nodeAt ==> (nodeAt[id] in liveNodes <==> id in pending))
      && (forall id :: id in linkAt ==> (linkAt[id] in liveLinks <==> id in pending))
      && (forall id :: id in linkAt ==> (Descriptor(id) in open <==> id in pending))
      && liveNodes <= nodeAt.Values && liveLinks <= linkAt.Values && open <= Descriptors()
    }

    ghost function Descriptor(id: Id): nat {
      if id in world.links then world.links[id].fd else 0
    }

    ghost function Descriptors(): set<nat> {
      set id | id in world.links :: world.links[id].fd
    }

    ghost predicate Accounted()
      reads this
    {
      && GivenOnce(nodeAt.Values, liveNodes, freedNodes)
      && GivenOnce(linkAt.Values, liveLinks, freedLinks)
      && GivenOnce(Descriptors(), open, closed)
    }

    /** A node not yet released is as it was, except that its list of virtuals may have been emptied. */
    ghost predicate Standing(id: Id)
      requires id in nodeAt
      reads this`pending, nodes, linkAt.Values
    {
      var n := nodeAt[id];
      && n in nodes
      && n.next == At(nodeAt, Following(id))
      && n.link == (if id in linkAt then linkAt[id] else null)
      && n.virtualHead == (if Virtual(id.m, 0) in pending && id.Master? then At(nodeAt, Virtual(id.m, 0)) else null)
      && (id.Virtual? ==>
            && n.virtualOf == At(nodeAt, Master(id.m))
            && Exists(world.topo, id) && n.writer == world.topo[id.m][id.v])
      && (id in linkAt ==> linkAt[id].node == n && id in world.links && linkAt[id].fd == world.links[id].fd)
    }

    /** The slot of a device keeps its flags until the device is released. */
    ghost predicate SlotAt(id: Id)
      reads this`pending, el, el.events
    {
      && Exists(world.topo, id) && id in world.links
      && var l := world.links[id];
         && (l.registered ==> l.fd < el.events.Length)
         && (l.fd < el.events.Length ==>
               el.events[l.fd].mask == if !l.registered then AE_NONE
                                       else if id in pending then Flags(world.topo, id)
                                       else Leftover(world.topo, id))
    }

    ghost predicate Valid()
      reads this, nodes, linkAt.Values, el, el.events
    {
      && Places() && Memory() && Accounted() && el.Valid()
      && (forall id {:trigger Standing(id)} :: id in pending ==> Standing(id))
      && (forall id {:trigger SlotAt(id)} :: id in linkAt ==> SlotAt(id))
      && (forall fd: nat :: fd < el.events.Length && fd !in Descriptors() ==> el.events[fd].mask == AE_NONE)
    }

    /** The devices of masters after m are pending, with master m and its virtuals from k on. */
    ghost predicate From(m: nat, k: nat)
      reads this`pending
    {
      Rest(pending, m, k)
    }

    ghost predicate Rest(ids: set<Id>, m: nat, k: nat) {
      forall id :: id in ids <==> id in nodeAt && (id.m > m || (id.m == m && (id.Master? || id.v >= k)))
    }

    lemma RestNext(ids: set<Id>, m: nat, k: nat)
      requires Rest(ids, m, k)
      ensures Rest(ids - {Virtual(m, k)}, m, k + 1)
    {
    }

    /** A running server about to shut down. */
    constructor (server: Server)
      requires server.Valid()
      ensures Valid() && From(0, 0)
      ensures el == server.el && world == server.world && nodes == server.nodes && nodeAt == server.nodeAt
      ensures linkAt == server.LinkMap()
    {
      hide Server.Valid, Server.Config, WellFormed, Memory, Accounted, Standing, SlotAt;
      server.Layout();
      el, masterHead, world := server.el, server.masterHead, server.world;
      nodes, nodeAt := server.nodes, server.nodeAt;
      linkAt := server.LinkMap();
      liveNodes := server.nodeAt.Values;
      liveLinks := server.LinkMap().Values;
      open := set id | id in server.world.links :: server.world.links[id].fd;
      freedNodes, freedLinks, closed := [], [], [];
      pending := server.nodeAt.Keys;
      new;
      Begins(server);
    }

    lemma AllHeld()
      requires liveNodes == nodeAt.Values && liveLinks == linkAt.Values && open == Descriptors()
      requires linkAt.Keys == world.links.Keys <= nodeAt.Keys
      requires freedNodes == [] && freedLinks == [] && closed == [] && pending == nodeAt.Keys
      ensures Memory() && Accounted()
    {
    }

    ghost predicate Mirrors(server: Server)
      reads this, server, server.nodes
    {
      && server.Config() && WellFormed(server.world)
      && el == server.el && masterHead == server.masterHead && world == server.world
      && nodes == server.nodes && nodeAt == server.nodeAt && linkAt.Keys == world.links.Keys <= nodeAt.Keys
      && forall id :: id in linkAt ==> nodeAt[id] in server.nodes && nodeAt[id].link == linkAt[id]
    }

    lemma LaidOut(server: Server)
      requires server.Valid() && Mirrors(server)
      ensures Places() && el.Valid()
      ensures forall fd: nat :: fd < el.events.Length && fd !in Descriptors() ==> el.events[fd].mask == AE_NONE
    {
      hide Server.Valid, Server.Config, WellFormed;
      server.Layout();
      forall a, b | a in linkAt && b in linkAt && linkAt[a] == linkAt[b] ensures a == b {
        server.LinkOrNot(a);
        server.LinkOrNot(b);
      }
    }

    lemma StandsAtFirst(server: Server, id: Id)
      requires server.Valid() && Mirrors(server) && pending == nodeAt.Keys && id in nodeAt
      ensures Standing(id)
    {
      hide Server.Valid, Server.Config, WellFormed;
      server.Layout();
      server.Neighbours(id);
      server.LinkOrNot(id);
    }

    /** Before anything is released, everything stands and is held. */
    lemma Begins(server: Server)
      requires server.Valid() && Mirrors(server)
      requires liveNodes == nodeAt.Values && liveLinks == linkAt.Values && open == Descriptors()
      requires freedNodes == [] && freedLinks == [] && closed == [] && pending == nodeAt.Keys
      ensures Valid() && From(0, 0)
    {
      hide Server.Valid, Server.Config, WellFormed, Memory, Accounted, Places, Standing, SlotAt;
      AllHeld();
      LaidOut(server);
      forall id | id in nodeAt ensures Standing(id) {
        StandsAtFirst(server, id);
      }
      forall id | id in linkAt ensures SlotAt(id) {
        FlagsAtFirst(server, id);
      }
      IdsFromStart();
    }

    lemma FlagsAtFirst(server: Server, id: Id)
      requires server.Valid() && Mirrors(server) && pending == nodeAt.Keys && id in linkAt
      ensures SlotAt(id)
    {
      hide Server.Valid, Server.Config, WellFormed;
      server.SlotIs(id);
    }

    lemma IdsFromStart()
      requires pending == nodeAt.Keys
      ensures From(0, 0)
    {
    }

    // ---------- memory ----------

    function Next(n: SerialNode): SerialNode?
      requires n in liveNodes
      reads this`liveNodes, n`next
    {
      n.next
    }

    function VirtualHead(n: SerialNode): SerialNode?
      requires n in liveNodes
      reads this`liveNodes, n`virtualHead
    {
      n.virtualHead
    }

    function VirtualOf(n: SerialNode): SerialNode?
      requires n in liveNodes
      reads this`liveNodes, n`virtualOf
    {
      n.virtualOf
    }

    function KindOf(n: SerialNode): Kind
      requires n in liveNodes
      reads this`liveNodes
    {
      n.kind
    }

    function IsWriter(n: SerialNode): bool
      requires n in liveNodes
      reads this`liveNodes, n`writer
    {
      n.writer
    }

    function LinkOf(n: SerialNode): SerialLink?
      requires n in liveNodes
      reads this`liveNodes, n`link
    {
      n.link
    }

    function NodeOf(l: SerialLink): SerialNode
      requires l in liveLinks
      reads this`liveLinks, l`node
    {
      l.node
    }

    function Fd(l: SerialLink): nat
      requires l in liveLinks
      reads this`liveLinks, l`fd
    {
      l.fd
    }

    method ClearNext(n: SerialNode)
      requires n in liveNodes
      modifies n`next
      ensures n.next == null
    {
      n.next := null;
    }

    method ClearVirtualHead(n: SerialNode)
      requires n in liveNodes
      modifies n`virtualHead
      ensures n.virtualHead == null
    {
      n.virtualHead := null;
    }

    method ClearVirtualOf(n: SerialNode)
      requires n in liveNodes
      modifies n`virtualOf
      ensures n.virtualOf == null
    {
      n.virtualOf := null;
    }

    method ClearLink(n: SerialNode)
      requires n in liveNodes
      modifies n`link
      ensures n.link == null
    {
      n.link := null;
    }

    ghost method ReturnNode(n: SerialNode)
      requires n in liveNodes
      modifies this`liveNodes, this`freedNodes
      ensures liveNodes == old(liveNodes) - {n} && freedNodes == old(freedNodes) + [n]
    {
      liveNodes, freedNodes := liveNodes - {n}, freedNodes + [n];
    }

    ghost method ReturnLink(l: SerialLink)
      requires l in liveLinks
      modifies this`liveLinks, this`freedLinks
      ensures liveLinks == old(liveLinks) - {l} && freedLinks == old(freedLinks) + [l]
    {
      liveLinks, freedLinks := liveLinks - {l}, freedLinks + [l];
    }

    ghost method Close(fd: nat)
      requires fd in open
      modifies this`open, this`closed
      ensures open == old(open) - {fd} && closed == old(closed) + [fd]
    {
      open, closed := open - {fd}, closed + [fd];
    }

    // ---------- list operations ----------

    /**
     serialGetVirtualWriterNode. The data plane has this walk, and the next method, for lists that are intact; here
     every node is read through the accessors above, which only exist where liveness is tracked.
     */
    method GetVirtualWriterNode(master: SerialNode, ghost vs: seq<SerialNode>) returns (node: SerialNode?)
      requires master in liveNodes && IsList(master.virtualHead, vs) && forall v :: v in vs ==> v in liveNodes
      ensures node == null <==> forall v :: v in vs ==> !v.writer
      ensures node != null ==> node in vs && node.writer
    {
      ghost var k: nat := 0;
      var cur := VirtualHead(master);
      while cur != null
        invariant cur == Nth(vs, k) && k <= |vs|
        invariant forall i :: 0 <= i < k ==> !vs[i].writer
        decreases |vs| - k
      {
        if IsWriter(cur) {
          return cur;
        }
        cur := Next(cur);
        k := k + 1;
      }
      return null;
    }

    /** _serialEventFlags, for the list of virtuals that the node has now. */
    method EventFlags(node: SerialNode, ghost vs: seq<SerialNode>) returns (flags: Mask)
      requires node in liveNodes && IsList(node.virtualHead, vs) && forall v :: v in vs ==> v in liveNodes
      ensures node.kind == MasterNode ==> flags == Mask(true, exists v :: v in vs && v.writer)
      ensures node.kind == VirtualNode ==> flags == Mask(node.writer, true)
    {
      flags := AE_NONE;
      if KindOf(node) == MasterNode {
        flags := AE_READABLE;
        var writer := GetVirtualWriterNode(node, vs);
        if writer != null {
          flags := flags.Or(AE_WRITABLE);
        }
      } else {
        flags := AE_WRITABLE;
        if IsWriter(node) {
          flags := flags.Or(AE_READABLE);
        }
      }
    }

    /**
     serialRemoveVirtualNode. The source never advances its prev, so whichever member is removed, the whole list of the
     master is emptied; removing a node that is not in the list changes nothing.
     */
    method RemoveVirtualNode(master: SerialNode, virtual: SerialNode, ghost vs: seq<SerialNode>)
      requires master in liveNodes && IsList(master.virtualHead, vs) && forall v :: v in vs ==> v in liveNodes
      requires virtual in liveNodes
      modifies master`virtualHead, virtual`next
      ensures master.virtualHead == if virtual in vs then null else old(master.virtualHead)
      ensures virtual.next == if virtual in vs then null else old(virtual.next)
    {
      ghost var k: nat := 0;
      var cur := VirtualHead(master);
      while cur != null
        invariant cur == Nth(vs, k) && k <= |vs|
        invariant virtual !in vs[..k]
        invariant master.virtualHead == old(master.virtualHead)
        invariant virtual.next == old(virtual.next) && IsList(master.virtualHead, vs)
        decreases |vs| - k
      {
        if virtual == cur {
          ClearVirtualHead(master);
          ClearNext(virtual);
          return;
        }
        cur := Next(cur);
        k := k + 1;
      }
    }

    /** The loop of serialFreeNode that makes every virtual still listed forget its master. */
    method Orphan(n: SerialNode, ghost vs: seq<SerialNode>)
      requires n in liveNodes && IsList(n.virtualHead, vs) && forall v :: v in vs ==> v in liveNodes
      modifies vs`virtualOf
      ensures forall v :: v in vs ==> v.virtualOf == null
    {
      ghost var k: nat := 0;
      var cur := VirtualHead(n);
      while cur != null
        invariant cur == Nth(vs, k) && k <= |vs| && IsList(n.virtualHead, vs)
        invariant forall i :: 0 <= i < k ==> vs[i].virtualOf == null
        decreases |vs| - k
      {
        ClearVirtualOf(cur);
        cur := Next(cur);
        k := k + 1;
      }
    }

    ghost function WithOwner(n: SerialNode): set<SerialNode>
      reads n`virtualOf
    {
      if n.kind == VirtualNode && n.virtualOf != null then {n, n.virtualOf} else {n}
    }

    /** serialFreeNode; listed is what the node has in its own list, siblings the list of its master. */
    method FreeNode(n: SerialNode, ghost listed: seq<SerialNode>, ghost siblings: seq<SerialNode>)
      requires n in liveNodes && IsList(n.virtualHead, listed) && n !in listed
      requires forall v :: v in listed ==> v in liveNodes
      requires forall v :: v in siblings ==> v in liveNodes
      requires n.kind == VirtualNode && n.virtualOf != null ==>
                 n.virtualOf in liveNodes && n.virtualOf != n && IsList(n.virtualOf.virtualHead, siblings)
      modifies this`liveNodes, this`freedNodes, n`next, WithOwner(n)`virtualHead, listed`virtualOf
      ensures liveNodes == old(liveNodes) - {n} && freedNodes == old(freedNodes) + [n]
      ensures n.kind == VirtualNode && old(n.virtualOf) != null ==>
                old(n.virtualOf).virtualHead == if n in siblings then null else old(n.virtualOf.virtualHead)
    {
      Orphan(n, listed);
      if KindOf(n) == VirtualNode {
        if VirtualOf(n) != null {
          RemoveVirtualNode(VirtualOf(n), n, siblings);
        }
      }
      ClearVirtualHead(n);
      ReturnNode(n);
    }

    /** _serialFreeLink, on a node whose list is listed. */
    method FreeLink(link: SerialLink, ghost listed: seq<SerialNode>)
      requires link in liveLinks && link.node in liveNodes && link.fd in open && el.Valid()
      requires IsList(link.node.virtualHead, listed) && forall v :: v in listed ==> v in liveNodes
      modifies this`liveLinks, this`freedLinks, this`open, this`closed
      modifies el`interest, el`calls, el`maxfd, el.events, link.node`link
      ensures liveLinks == old(liveLinks) - {link} && freedLinks == old(freedLinks) + [link]
      ensures open == old(open) - {link.fd} && closed == old(closed) + [link.fd]
      ensures link.node.link == null && el.Valid() && el.events == old(el.events)
      ensures el.events[..] == Deleted(old(el.events[..]), link.fd,
                                       if link.node.kind == MasterNode
                                       then Mask(true, exists v :: v in listed && v.writer)
                                       else Mask(link.node.writer, true))
    {
      var flags := EventFlags(NodeOf(link), listed);
      el.DeleteFileEvent(Fd(link), flags);
      ClearLink(NodeOf(link));
      Close(Fd(link));
      ReturnLink(link);
    }

    // ---------- one device ----------

    /** What a pending device holds. */
    lemma Holds(id: Id)
      requires Valid() && id in pending
      ensures id in nodeAt && nodeAt[id] in liveNodes && nodeAt[id] in nodes && Exists(world.topo, id) && Standing(id)
      ensures nodeAt[id].kind == if id.Master? then MasterNode else VirtualNode
      ensures id in linkAt ==> linkAt[id] in liveLinks && Descriptor(id) in open && id in world.links && SlotAt(id)
      ensures linkAt.Keys == world.links.Keys && el.Valid()
    {
    }

    /** The mask that a slot is left with when the link of one device is freed. */
    ghost function MaskAfter(id: Id, fd: nat, mask: Mask): Mask
      requires Exists(world.topo, id)
    {
      if id in world.links && world.links[id].fd == fd && world.links[id].registered
      then Leftover(world.topo, id) else mask
    }

    /** Only the link of a device is gone, with its registration and descriptor. */
    twostate predicate LinkReleased(id: Id)
      reads this, nodes, el, el.events
    {
      && id in nodeAt && Exists(world.topo, id) && id in pending && el.Valid() && el.events == old(el.events)
      && (forall n :: n in nodes && n != nodeAt[id] ==> unchanged(n))
      && liveLinks == (if id in linkAt then old(liveLinks) - {linkAt[id]} else old(liveLinks))
      && freedLinks == (if id in linkAt then old(freedLinks) + [linkAt[id]] else old(freedLinks))
      && open == (if id in linkAt then old(open) - {Descriptor(id)} else old(open))
      && closed == (if id in linkAt then old(closed) + [Descriptor(id)] else old(closed))
      && forall fd: nat :: fd < el.events.Length ==>
           el.events[fd].mask == MaskAfter(id, fd, old(el.events[fd].mask))
    }

    method ReleaseLink(tmp: SerialNode, ghost id: Id)
      requires Valid() && id in pending && nodeAt[id] == tmp && tmp.virtualHead == null
      modifies this`liveLinks, this`freedLinks, this`open, this`closed
      modifies el`interest, el`calls, el`maxfd, el.events, tmp`link
      ensures LinkReleased(id)
    {
      hide Valid, Memory, Accounted, Places;
      Holds(id);
      var link := LinkOf(tmp);
      if link != null {
        ghost var slots := el.events[..];
        FreeLink(link, []);
        ghost var flags := if tmp.kind == MasterNode then Mask(true, false) else Mask(tmp.writer, true);
        assert el.events[..] == Deleted(slots, Descriptor(id), flags);
        assert forall k: nat :: k < |slots| ==> el.events[k] == Deleted(slots, Descriptor(id), flags)[k];
        ClearLink(tmp);
      }
    }

    twostate predicate GivenBack(id: Id)
      reads this
    {
      && id in nodeAt && liveNodes == old(liveNodes) - {nodeAt[id]} && freedNodes == old(freedNodes) + [nodeAt[id]]
      && liveLinks == (if id in linkAt then old(liveLinks) - {linkAt[id]} else old(liveLinks))
      && freedLinks == (if id in linkAt then old(freedLinks) + [linkAt[id]] else old(freedLinks))
      && open == (if id in linkAt then old(open) - {Descriptor(id)} else old(open))
      && closed == (if id in linkAt then old(closed) + [Descriptor(id)] else old(closed))
      && id in old(pending) && pending == old(pending) - {id}
    }

    twostate predicate OthersStand(id: Id)
      requires id in nodeAt
      reads nodes, linkAt.Values
    {
      && (forall n :: n in nodes && n != nodeAt[id] ==>
            && n.next == old(n.next) && n.link == old(n.link) && n.virtualOf == old(n.virtualOf)
            && n.writer == old(n.writer)
            && n.virtualHead == if id == Virtual(id.m, 0) && n == At(nodeAt, Master(id.m)) then null
                                else old(n.virtualHead))
      && (forall l :: l in linkAt.Values ==> unchanged(l))
    }

    twostate lemma MemoryAfter(id: Id)
      requires old(Memory()) && Places() && GivenBack(id)
      ensures Memory()
    {
    }

    twostate lemma AccountedAfter(id: Id)
      requires old(Memory()) && old(Accounted()) && Places() && GivenBack(id)
      ensures Accounted()
    {
      hide GivenOnce, WellFormed;
      assert nodeAt[id] in old(liveNodes);
      GivenNext(nodeAt.Values, old(liveNodes), old(freedNodes), nodeAt[id]);
      if id in linkAt {
        GivenNext(linkAt.Values, old(liveLinks), old(freedLinks), linkAt[id]);
        GivenNext(Descriptors(), old(open), old(closed), Descriptor(id));
      }
    }

    twostate lemma SlotAfter(id: Id)
      requires old(Valid()) && id in old(pending) && pending == old(pending) - {id}
      requires Exists(world.topo, id) && el.events == old(el.events)
      requires forall fd: nat :: fd < el.events.Length ==>
                 el.events[fd].mask == MaskAfter(id, fd, old(el.events[fd].mask))
      ensures forall other :: other in linkAt ==> SlotAt(other)
      ensures forall fd: nat :: fd < el.events.Length && fd !in Descriptors() ==> el.events[fd].mask == AE_NONE
    {
      forall other | other in linkAt ensures SlotAt(other) {
        assert old(SlotAt(other));
      }
      forall fd: nat | fd < el.events.Length && fd !in Descriptors() ensures el.events[fd].mask == AE_NONE {
        assert id in world.links ==> world.links[id].fd in Descriptors();
      }
    }

    /** The nodes of the other devices stand as before; when the first virtual of a master goes, its list is empty. */
    twostate lemma StandingAfter(id: Id)
      requires old(Valid()) && id in old(pending) && pending == old(pending) - {id}
      requires id in nodeAt && OthersStand(id)
      ensures forall other :: other in pending ==> Standing(other)
    {
      forall other | other in pending ensures Standing(other) {
        assert old(Standing(other));
        assert nodeAt[other] != nodeAt[id];
      }
    }

    /** Releasing one device, in order, keeps the state valid. */
    twostate lemma ValidAfter(id: Id)
      requires old(Valid()) && GivenBack(id) && OthersStand(id) && el.Valid()
      requires Exists(world.topo, id) && el.events == old(el.events)
      requires forall fd: nat :: fd < el.events.Length ==>
                 el.events[fd].mask == MaskAfter(id, fd, old(el.events[fd].mask))
      ensures Valid()
    {
      hide Memory, Accounted, Standing, SlotAt;
      MemoryAfter(id);
      AccountedAfter(id);
      SlotAfter(id);
      StandingAfter(id);
    }

    /** The list a virtual of master m is removed from: all of them before the first was removed, and none after. */
    ghost function Siblings(m: nat): seq<SerialNode>
      requires Places() && m < |world.topo|
      reads this`pending
    {
      if Virtual(m, 0) in pending then ListOf(m) else []
    }

    ghost function ListOf(m: nat): (s: seq<SerialNode>)
      requires Places() && m < |world.topo|
      ensures |s| == |world.topo[m]| && forall v :: 0 <= v < |s| ==> s[v] == nodeAt[Virtual(m, v)]
    {
      seq(|world.topo[m]|, v requires 0 <= v < |world.topo[m]| => nodeAt[Virtual(m, v)])
    }

    lemma SiblingsListed(m: nat, k: nat)
      requires Valid() && From(m, k) && m < |world.topo| && k < |world.topo[m]|
      ensures Master(m) in pending && Virtual(m, k) in pending && Master(m) in nodeAt && Virtual(m, k) in nodeAt
      ensures Places() && Memory() && Accounted()
      ensures var node, master := nodeAt[Virtual(m, k)], nodeAt[Master(m)];
              && Exists(world.topo, Virtual(m, k))
              && node in nodes && node in liveNodes && master in nodes && master in liveNodes && node != master
              && node.kind == VirtualNode && node.virtualHead == null && node.virtualOf == master
              && node.virtualOf == At(nodeAt, Master(m))
      ensures IsList(nodeAt[Master(m)].virtualHead, Siblings(m))
      ensures forall v :: v in Siblings(m) ==> v in liveNodes && v in nodes
      ensures nodeAt[Virtual(m, k)] in Siblings(m) <==> k == 0
    {
      hide Memory, Accounted;
      assert Exists(world.topo, Virtual(m, k)) && Exists(world.topo, Master(m));
      Holds(Master(m));
      Holds(Virtual(m, k));
      if k == 0 {
        var s := ListOf(m);
        assert At(nodeAt, Virtual(m, |s|)) == null;
        forall v | 0 <= v < |s| ensures s[v] in liveNodes && s[v] in nodes && s[v].next == Nth(s, v + 1) {
          assert Exists(world.topo, Virtual(m, v));
          Holds(Virtual(m, v));
        }
        assert s[0] == nodeAt[Virtual(m, 0)];
      }
    }

    /** serialFreeNode, seen from the other nodes. */
    method Dispose(tmp: SerialNode, ghost id: Id, ghost siblings: seq<SerialNode>)
      requires id in pending && id in nodeAt && nodeAt[id] == tmp && tmp.virtualHead == null && tmp in liveNodes
      requires forall v :: v in siblings ==> v in liveNodes && v in nodes
      requires tmp.kind == if id.Master? then MasterNode else VirtualNode
      requires tmp.kind == VirtualNode ==>
                 && tmp.virtualOf != null && tmp.virtualOf == At(nodeAt, Master(id.m)) && tmp.virtualOf in nodes
                 && tmp.virtualOf in liveNodes && tmp.virtualOf != tmp && IsList(tmp.virtualOf.virtualHead, siblings)
                 && (tmp in siblings <==> id == Virtual(id.m, 0))
      requires tmp in nodes
      modifies this`liveNodes, this`freedNodes, this`pending, nodes`next, nodes`virtualHead
      ensures liveNodes == old(liveNodes) - {tmp} && freedNodes == old(freedNodes) + [tmp]
      ensures pending == old(pending) - {id} && OthersStand(id)
    {
      FreeNode(tmp, [], siblings);
      pending := pending - {id};
    }

    twostate lemma SiblingsKept(m: nat)
      requires Places() && m < |world.topo| && pending == old(pending) && Master(m) in nodeAt
      requires nodeAt[Master(m)].virtualHead == old(nodeAt[Master(m)].virtualHead)
      requires forall v :: v in Siblings(m) ==> v in nodes
      requires forall n :: n in nodes ==> n.next == old(n.next)
      requires old(IsList(nodeAt[Master(m)].virtualHead, Siblings(m)))
      ensures IsList(nodeAt[Master(m)].virtualHead, Siblings(m)) && IsList(null, [])
    {
      var s := Siblings(m);
      forall i | 0 <= i < |s| ensures s[i].next == Nth(s, i + 1) {
        assert s[i] in nodes;
      }
    }

    /** The link of a virtual goes before its node; its master's list stays as it is. */
    method ReleaseVirtualLink(tmp: SerialNode, ghost m: nat, ghost k: nat)
      requires Valid() && From(m, k) && m < |world.topo| && k < |world.topo[m]| && nodeAt[Virtual(m, k)] == tmp
      modifies this`liveLinks, this`freedLinks, this`open, this`closed
      modifies el`interest, el`calls, el`maxfd, el.events, tmp`link
      ensures Places() && LinkReleased(Virtual(m, k))
      ensures tmp in liveNodes && tmp in nodes && tmp.kind == VirtualNode && tmp.virtualHead == null
      ensures tmp.virtualOf != null && tmp.virtualOf == At(nodeAt, Master(m)) && tmp.virtualOf in nodes
      ensures tmp.virtualOf in liveNodes && tmp.virtualOf != tmp && IsList(tmp.virtualOf.virtualHead, Siblings(m))
      ensures forall v :: v in Siblings(m) ==> v in liveNodes && v in nodes
      ensures tmp in Siblings(m) <==> k == 0
    {
      hide Valid, Memory, Accounted, Places, SlotAt, Standing, Siblings, MaskAfter, Rest, IsList, Exists;
      SiblingsListed(m, k);
      ReleaseLink(tmp, Virtual(m, k));
      SiblingsKept(m);
    }

    /** The part of the inner loop that releases one virtual. */
    method ReleaseVirtual(tmp: SerialNode, ghost m: nat, ghost k: nat)
      requires Valid() && From(m, k) && m < |world.topo| && k < |world.topo[m]| && nodeAt[Virtual(m, k)] == tmp
      requires tmp in nodes
      modifies this`liveNodes, this`liveLinks, this`open, this`freedNodes, this`freedLinks, this`closed, this`pending
      modifies el`interest, el`calls, el`maxfd, el.events
      modifies nodes`next, nodes`virtualHead, nodes`link
      ensures Valid() && From(m, k + 1)
    {
      hide Valid, Memory, Accounted, Places, SlotAt, Standing, Siblings, MaskAfter, Rest, IsList, Exists;
      RestNext(pending, m, k);
      ReleaseVirtualLink(tmp, m, k);
      Dispose(tmp, Virtual(m, k), Siblings(m));
      ValidAfter(Virtual(m, k));
    }

    lemma LastOfMaster(m: nat)
      requires Valid() && m < |world.topo| && From(m, |world.topo[m]|)
      ensures Master(m) in pending && Master(m) in nodeAt && Exists(world.topo, Master(m))
      ensures Places() && Memory() && Accounted()
      ensures var node := nodeAt[Master(m)];
              node in nodes && node in liveNodes && node.kind == MasterNode && node.virtualHead == null
    {
      hide Memory, Accounted;
      assert Exists(world.topo, Master(m));
      Holds(Master(m));
    }

    lemma RestOfMaster(ids: set<Id>, m: nat)
      requires Places() && m < |world.topo| && Rest(ids, m, |world.topo[m]|)
      ensures Rest(ids - {Master(m)}, m + 1, 0)
    {
    }

    /** The part of the outer loop that releases a master, once its virtuals are gone. */
    method ReleaseMaster(tmp: SerialNode, ghost m: nat)
      requires Valid() && m < |world.topo| && From(m, |world.topo[m]|)
      requires Master(m) in nodeAt && nodeAt[Master(m)] == tmp
      modifies this`liveNodes, this`liveLinks, this`open, this`freedNodes, this`freedLinks, this`closed, this`pending
      modifies el`interest, el`calls, el`maxfd, el.events
      modifies nodes`next, nodes`virtualHead, nodes`link
      ensures Valid() && From(m + 1, 0)
    {
      hide Valid, Memory, Accounted, Places, SlotAt, Standing, MaskAfter, Rest, Nth, At, Exists;
      LastOfMaster(m);
      RestOfMaster(pending, m);
      ReleaseLink(tmp, Master(m));
      Dispose(tmp, Master(m), []);
      assert OthersStand(Master(m));
      ValidAfter(Master(m));
    }

    /** The node of a pending device, and where it leads. */
    lemma Leads(id: Id)
      requires Valid() && id in pending
      ensures id in nodeAt && nodeAt[id] in liveNodes && nodeAt[id] in nodes
      ensures nodeAt[id].next == At(nodeAt, Following(id))
      ensures id.m < |world.topo| && (id.Virtual? ==> id.v < |world.topo[id.m]|)
    {
      assert Standing(id);
    }

    lemma Ids(m: nat, k: nat)
      requires Valid() && From(m, k)
      ensures forall id :: id in nodeAt <==> Exists(world.topo, id)
      ensures masterHead == At(nodeAt, Master(0))
      ensures m < |world.topo| ==> Master(m) in pending
      ensures m < |world.topo| && k < |world.topo[m]| ==> Virtual(m, k) in pending
      ensures m >= |world.topo| ==> pending == {}
      ensures m < |world.topo| && k == 0 ==>
                Master(m) in nodeAt && nodeAt[Master(m)] in nodes
                && nodeAt[Master(m)].virtualHead == At(nodeAt, Virtual(m, 0))
    {
      assert m < |world.topo| ==> Exists(world.topo, Master(m)) && Standing(Master(m));
      assert m < |world.topo| && k < |world.topo[m]| ==> Exists(world.topo, Virtual(m, k));
    }

    /**
     serialTerm, from any running server: every node, link and descriptor is given back exactly once, nothing given
     back is used again, and the slots that stay registered are those of the masters with a writer.
     */
    method SerialTerm()
      requires Valid() && From(0, 0)
      modifies this`liveNodes, this`liveLinks, this`open, this`freedNodes, this`freedLinks, this`closed, this`pending
      modifies el`interest, el`calls, el`maxfd, el.events
      modifies nodes`next, nodes`virtualHead, nodes`link
      ensures Valid() && pending == {}
    {
      hide Valid, Rest;
      Ids(0, 0);
      var node := masterHead;
      ghost var m: nat := 0;
      while node != null
        invariant Valid() && m <= |world.topo| && From(m, 0) && node == At(nodeAt, Master(m))
        invariant el.events == old(el.events)
        decreases |world.topo| - m
      {
        Ids(m, 0);
        Leads(Master(m));
        var vnode := VirtualHead(node);
        ghost var k: nat := 0;
        while vnode != null
          invariant Valid() && m < |world.topo| && k <= |world.topo[m]| && From(m, k)
          invariant vnode == At(nodeAt, Virtual(m, k)) && node == At(nodeAt, Master(m))
          invariant el.events == old(el.events)
          decreases |world.topo[m]| - k
        {
          Ids(m, k);
          Leads(Virtual(m, k));
          var tmp := vnode;
          vnode := Next(vnode);
          ReleaseVirtual(tmp, m, k);
          k := k + 1;
        }
        Ids(m, k);
        Leads(Master(m));
        var tmp := node;
        node := Next(node);
        ReleaseMaster(tmp, m);
        m := m + 1;
      }
      Ids(m, 0);
    }

    lemma NothingLive()
      requires Places() && Memory() && pending == {}
      ensures liveNodes == {} && liveLinks == {} && open == {}
    {
    }

    /** With nothing pending, nothing is held any more, and all that was held was given back exactly once. */
    lemma NothingHeld()
      requires Valid() && pending == {}
      ensures liveNodes == {} && liveLinks == {} && open == {}
      ensures ElementsOf(freedNodes) == nodeAt.Values && |freedNodes| == |nodeAt.Values|
      ensures ElementsOf(freedLinks) == linkAt.Values && |freedLinks| == |linkAt.Values|
      ensures ElementsOf(closed) == Descriptors() && |closed| == |Descriptors()|
    {
      hide Places, Memory, Standing, SlotAt, MaxFd, Mirror;
      NothingLive();
      Counted(freedNodes);
      Counted(freedLinks);
      Counted(closed);
      assert ElementsOf(closed) == Descriptors();
    }

    /** With nothing pending, exactly the masters with a writer still have a slot, for writing alone. */
    lemma SlotsLeft(fd: nat)
      requires Valid() && pending == {} && fd < el.events.Length
      ensures el.events[fd].mask == if HeldByWrittenMaster(fd) then AE_WRITABLE else AE_NONE
    {
      hide Memory, Accounted, MaxFd, Mirror, FirstWriter;
      forall id | id in world.links && world.links[id].fd == fd ensures SlotAt(id) {
      }
      assert WellFormed(world);
    }

    /** fd was the registered descriptor of a master that has a writer. */
    ghost predicate HeldByWrittenMaster(fd: nat) {
      exists m: nat :: Master(m) in world.links && world.links[Master(m)].fd == fd
        && world.links[Master(m)].registered && m < |world.topo| && FirstWriter(world.topo[m]).Some?
    }
  }

  /**
   serialTerm, from any running server. Every node, link and descriptor is given back exactly once; the slots that stay
   registered are exactly those of the masters that have a writer, for writing alone.
   */
  method ShutDown(server: Server) returns (term: Termination)
    requires server.Valid()
    modifies server.el`interest, server.el`calls, server.el`maxfd, server.el.events
    modifies server.nodes`next, server.nodes`virtualHead, server.nodes`link
    ensures fresh(term) && term.world == server.world && term.el == server.el
    ensures term.liveNodes == {} && term.liveLinks == {} && term.open == {}
    ensures ElementsOf(term.freedNodes) == server.nodeAt.Values && |term.freedNodes| == |server.nodeAt.Values|
    ensures ElementsOf(term.freedLinks) == old(server.LinkMap().Values)
    ensures |term.freedLinks| == |old(server.LinkMap().Values)|
    ensures ElementsOf(term.closed) == term.Descriptors() && |term.closed| == |term.Descriptors()|
    ensures forall fd: nat :: fd < server.el.events.Length ==>
              server.el.events[fd].mask == if term.HeldByWrittenMaster(fd) then AE_WRITABLE else AE_NONE
  {
    hide Server.Valid, Termination.Valid, Termination.HeldByWrittenMaster, ElementsOf;
    term := new Termination(server);
    term.SerialTerm();
    term.NothingHeld();
    forall fd: nat | fd < server.el.events.Length
      ensures server.el.events[fd].mask == if term.HeldByWrittenMaster(fd) then AE_WRITABLE else AE_NONE
    {
      term.SlotsLeft(fd);
    }
  }

  ghost function ElementsOf<T>(s: seq<T>): set<T> {
    set x | x in s
  }

  lemma {:induction false} Counted<T>(s: seq<T>)
    requires forall i, j :: 0 <= i < j < |s| ==> s[i] != s[j]
    ensures |ElementsOf(s)| == |s|
  {
    if s != [] {
      var rest := s[..|s| - 1];
      Counted(rest);
      assert ElementsOf(s) == ElementsOf(rest) + {s[|s| - 1]};
    }
  }
}
