/**
 The data plane on the heap: links, nodes linked through next, and the fd-indexed event table, as src/serial.c and
 src/ae.c handle them. The ghost field world is the abstract state of module Proxy; every method is proved to take
 it through the corresponding step.
 */
module ProxyServer {
  import opened Options
  import opened Masks
  import opened EventTable
  import opened Proxy
  import opened Delivery
  import opened DeliveryTheorems
  import opened RunTheorems
  import opened SerialNodes

  /** The linked lists from head are exactly the nodes of a topology, each at its own place. */
  ghost predicate ListsOf(nodes: set<SerialNode>, nodeAt: map<Id, SerialNode>, head: SerialNode?, topo: Topology)
    reads nodes`next, nodes`virtualHead, nodes`virtualOf, nodes`writer
  {
    && (forall id :: id in nodeAt <==> Exists(topo, id))
    && (forall id :: id in nodeAt ==> nodeAt[id] in nodes)
    && (forall a, b :: a in nodeAt && b in nodeAt && nodeAt[a] == nodeAt[b] ==> a == b)
    && head == At(nodeAt, Master(0))
    && (forall id {:trigger nodeAt[id].kind} :: id in nodeAt ==>
          nodeAt[id].kind == if id.Master? then MasterNode else VirtualNode)
    && (forall id {:trigger nodeAt[id].next} :: id in nodeAt ==>
          nodeAt[id].next == At(nodeAt, if id.Master? then Master(id.m + 1) else Virtual(id.m, id.v + 1)))
    && (forall id {:trigger nodeAt[id].virtualHead} :: id in nodeAt ==>
          nodeAt[id].virtualHead == if id.Master? then At(nodeAt, Virtual(id.m, 0)) else null)
    && (forall id {:trigger nodeAt[id].virtualOf} :: id in nodeAt && id.Virtual? ==>
          nodeAt[id].virtualOf == At(nodeAt, Master(id.m)))
    && (forall id {:trigger nodeAt[id].writer} :: id in nodeAt && id.Virtual? ==>
          Exists(topo, id) && nodeAt[id].writer == topo[id.m][id.v])
  }

  ghost function At(nodeAt: map<Id, SerialNode>, id: Id): SerialNode? {
    if id in nodeAt then nodeAt[id] else null
  }

  // ---------- clearing, device by device ----------

  ghost function ClearOne(w: World, id: Id): (w': World)
    ensures w'.topo == w.topo
  {
    if id in w.links then w.(links := w.links[id := w.links[id].(len := 0)]) else w
  }

  /** The state when masters before m, and the first k of master m and its virtuals, have been cleared. */
  ghost function ClearedTo(w: World, m: nat, k: nat): (w': World)
    ensures w'.topo == w.topo
  {
    w.(links := map id | id in w.links ::
      if id.m < m || (id.m == m && (if id.Master? then 0 < k else id.v + 1 < k))
      then w.links[id].(len := 0) else w.links[id])
  }

  lemma ClearedStep(w: World, m: nat, k: nat)
    ensures ClearOne(ClearedTo(w, m, k), if k == 0 then Master(m) else Virtual(m, k - 1)) == ClearedTo(w, m, k + 1)
  {
  }

  lemma ClearedNext(w: World, m: nat)
    requires WellFormed(w) && m < |w.topo|
    ensures ClearedTo(w, m, |w.topo[m]| + 1) == ClearedTo(w, m + 1, 0)
  {
  }

  lemma ClearedEnds(w: World)
    requires WellFormed(w)
    ensures ClearedTo(w, 0, 0) == w
    ensures var c := ClearedTo(w, |w.topo|, 0); Proxy.BeforeSleep(w) == c.(cycle := c.cycle + 1)
  {
  }

  class Server {
    const el: EventLoop<SerialLink>
    var masterHead: SerialNode?
    // The nodes by their place in the lists.
    ghost const nodes: set<SerialNode>
    ghost const nodeAt: map<Id, SerialNode>
    // Every link made so far, and the device that last registered each descriptor.
    ghost var links: set<SerialLink>
    ghost var owner: map<nat, Id>
    ghost var world: World
    // Where the run began, and its turns.
    ghost var start: World
    ghost var turns: seq<Turn>

    ghost predicate Config()
      reads this`masterHead, this`world
      reads nodes`next, nodes`virtualHead, nodes`virtualOf, nodes`writer
    {
      ListsOf(nodes, nodeAt, masterHead, world.topo)
    }

    /** A server over the lists the configuration built, before anything is connected. */
    constructor (el: EventLoop<SerialLink>, head: SerialNode?, ghost nodes: set<SerialNode>,
                 ghost nodeAt: map<Id, SerialNode>, ghost topo: Topology)
      requires el.Valid() && forall fd :: 0 <= fd < el.events.Length ==> el.events[fd].mask == AE_NONE
      requires ListsOf(nodes, nodeAt, head, topo) && forall id :: id in nodeAt ==> nodeAt[id].link == null
      ensures Valid() && this.el == el && masterHead == head && this.nodes == nodes && this.nodeAt == nodeAt
      ensures links == {}
      ensures world == Start(topo, el.setsize)
    {
      this.el, masterHead, this.nodes, this.nodeAt := el, head, nodes, nodeAt;
      links, owner := {}, map[];
      world := Start(topo, el.setsize);
      start, turns := Start(topo, el.setsize), [];
    }

    /** The link of a node is what the abstract state says of its device. */
    ghost predicate Linked(id: Id)
      requires id in nodeAt && nodeAt[id] in nodes
      reads this`masterHead, this`world, this`links, this`owner, nodes, links, el, el.events
    {
      var link := nodeAt[id].link;
      if link == null then id !in world.links
      else
        && link in links && link.node == nodeAt[id]
        && id in world.links
        && var l := world.links[id];
           && Exists(world.topo, id)
           && link.fd == l.fd && link.recvbuf == l.buf && link.recvbuflen == l.len
           && (if l.registered
               then l.fd < el.events.Length && el.events[l.fd] == FileEvent(Flags(world.topo, id), Some(link))
               else l.fd < el.events.Length ==> el.events[l.fd].mask == AE_NONE)
    }

    /**
     Coherence of links and registrations: every nonempty slot of the table holds the live link of exactly one node,
     under its own descriptor and with exactly the flags of that node.
     */
    ghost predicate Valid()
      reads this`masterHead, this`world, this`links, this`owner, nodes, links, el, el.events
    {
      && el.Valid() && el.setsize == world.setsize
      && Config()
      && WellFormed(world)
      && (forall id {:trigger Linked(id)} :: id in nodeAt ==> Linked(id))
      && (forall fd: nat :: fd < el.events.Length && el.events[fd].mask != AE_NONE ==>
            && fd in owner && owner[fd] in world.links
            && world.links[owner[fd]].fd == fd && world.links[owner[fd]].registered)
    }

    /** Where one node leads. */
    lemma Neighbours(id: Id)
      requires Valid() && id in nodeAt
      ensures Exists(world.topo, id) && nodeAt[id] in nodes && masterHead == At(nodeAt, Master(0))
      ensures nodeAt[id].next == At(nodeAt, if id.Master? then Master(id.m + 1) else Virtual(id.m, id.v + 1))
      ensures nodeAt[id].virtualHead == if id.Master? then At(nodeAt, Virtual(id.m, 0)) else null
      ensures id.Virtual? ==>
                && Master(id.m) in nodeAt && nodeAt[id].virtualOf == nodeAt[Master(id.m)]
                && nodeAt[id].writer == world.topo[id.m][id.v]
    {
      assert nodeAt[id].next == nodeAt[id].next;
    }

    lemma LinkOrNot(id: Id)
      requires Valid() && id in nodeAt
      ensures nodeAt[id] in nodes && (nodeAt[id].link == null <==> id !in world.links)
      ensures nodeAt[id].link != null ==>
                && nodeAt[id].link in links && nodeAt[id].link.node == nodeAt[id]
                && nodeAt[id].link.fd == world.links[id].fd
    {
      assert Linked(id);
    }

    lemma Places()
      requires Valid()
      ensures masterHead == At(nodeAt, Master(0)) && WellFormed(world)
      ensures forall id :: id in nodeAt <==> Exists(world.topo, id)
    {
    }

    /** The link of a node keeps agreeing with the abstract state when neither they nor its slot change. */
    twostate lemma LinkedKept(id: Id)
      requires id in nodeAt && nodeAt[id] in nodes && old(Linked(id))
      requires nodeAt[id].link == old(nodeAt[id].link) && old(links) <= links
      requires world.topo == old(world.topo) && el.events.Length == old(el.events.Length)
      requires nodeAt[id].link != null ==> unchanged(nodeAt[id].link)
      requires id in world.links <==> id in old(world.links)
      requires id in world.links ==>
                 && world.links[id] == old(world.links[id])
                 && (world.links[id].fd < el.events.Length ==>
                       el.events[world.links[id].fd] == old(el.events[world.links[id].fd]))
      ensures Linked(id)
    {
    }

    /** Freeing the link of one device, with its slot emptied first, keeps the state valid. */
    twostate lemma ValidAfterFree(id: Id)
      requires old(Valid()) && id in nodeAt && id in old(world.links)
      requires Config() && el.Valid() && el.events == old(el.events) && el.setsize == old(el.setsize)
      requires links == old(links) && owner == old(owner) && world == Proxy.FreeLink(old(world), id)
      requires nodeAt[id].link == null && forall n :: n in nodes && n != nodeAt[id] ==> n.link == old(n.link)
      requires forall l :: l in links ==> unchanged(l)
      requires EmptySlotAt(old(world.links[id].fd))
      ensures Valid()
    {
      assert Linked(id);
      forall other | other in nodeAt ensures Linked(other) {
        assert old(Linked(other));
        if other != id {
          assert nodeAt[other] != nodeAt[id];
          LinkedKept(other);
        }
      }
      forall k: nat | k < el.events.Length && el.events[k].mask != AE_NONE
        ensures k in owner && owner[k] in world.links
                && world.links[owner[k]].fd == k && world.links[owner[k]].registered
      {
        assert old(el.events[k].mask) != AE_NONE;
      }
    }

    /** Changing only the receive buffer of one link keeps the state valid. */
    twostate lemma ValidAfterBuffer(id: Id)
      requires old(Valid()) && id in nodeAt && unchanged(el) && unchanged(el.events)
      requires Config() && links == old(links) && owner == old(owner)
      requires forall n :: n in nodes ==> n.link == old(n.link)
      requires forall l :: l in links && l != nodeAt[id].link ==> unchanged(l)
      requires world.topo == old(world.topo) && world.setsize == old(world.setsize)
      requires world.links.Keys == old(world.links).Keys && id in world.links && Linked(id)
      requires forall other :: other in world.links ==>
                 && world.links[other].fd == old(world.links[other].fd)
                 && world.links[other].registered == old(world.links[other].registered)
                 && (other != id ==> world.links[other] == old(world.links[other]))
      ensures Valid()
    {
      forall other | other in nodeAt ensures Linked(other) {
        assert old(Linked(other)) && old(Linked(id));
        if other != id {
          assert nodeAt[other] != nodeAt[id];
          LinkedKept(other);
        }
      }
    }

    /** No node is in two places, and no slot is in use but that of a registered link. */
    lemma Layout()
      requires Valid()
      ensures WellFormed(world) && el.Valid() && Config() && masterHead == At(nodeAt, Master(0))
      ensures el.events.Length == el.setsize == world.setsize
      ensures forall id :: id in nodeAt <==> Exists(world.topo, id)
      ensures forall id :: id in world.links ==> id in nodeAt
      ensures forall id :: id in nodeAt ==> nodeAt[id] in nodes
      ensures forall a, b :: a in nodeAt && b in nodeAt && nodeAt[a] == nodeAt[b] ==> a == b
      ensures forall id {:trigger nodeAt[id].kind} :: id in nodeAt ==>
                nodeAt[id].kind == if id.Master? then MasterNode else VirtualNode
      ensures forall fd: nat :: fd < el.events.Length && el.events[fd].mask != AE_NONE ==>
                exists id :: id in world.links && world.links[id].fd == fd && world.links[id].registered
    {
    }

    /** The link of every device that has one. */
    ghost function LinkMap(): (links: map<Id, SerialLink>)
      requires Valid()
      reads this`masterHead, this`world, this`links, this`owner, nodes, links, el, el.events
      ensures links.Keys == world.links.Keys
      ensures forall id :: id in links ==> id in nodeAt && nodeAt[id] in nodes && nodeAt[id].link == links[id]
    {
      map id | id in world.links :: LinkFor(id)
    }

    ghost function LinkFor(id: Id): (link: SerialLink)
      requires Valid() && id in world.links
      reads this`masterHead, this`world, this`links, this`owner, nodes, links, el, el.events
      ensures id in nodeAt && nodeAt[id] in nodes && nodeAt[id].link == link
    {
      assert Linked(id);
      nodeAt[id].link
    }

    lemma SlotIs(id: Id)
      requires Valid() && id in world.links
      ensures Exists(world.topo, id)
      ensures var l := world.links[id];
              && (l.registered ==> l.fd < el.events.Length)
              && (l.fd < el.events.Length ==>
                    el.events[l.fd].mask == if l.registered then Flags(world.topo, id) else AE_NONE)
    {
      assert Linked(id);
    }

    /** A step of the abstract state that concerns no link. */
    ghost method Record(w: World)
      requires Valid() && w.topo == world.topo && w.setsize == world.setsize && w.links == world.links
      modifies this`world
      ensures Valid() && world == w
    {
      world := w;
      forall id | id in nodeAt ensures Linked(id) {
        LinkedKept(id);
      }
    }

    /** The slot of fd is empty, and the other slots are as they were. */
    twostate predicate EmptySlotAt(fd: nat)
      reads el, el.events
    {
      && el.events == old(el.events)
      && (fd < el.events.Length ==> el.events[fd].mask == AE_NONE)
      && (forall k: nat :: k < el.events.Length && k != fd ==> el.events[k] == old(el.events[k]))
    }

    /** serialGetVirtualWriterNode. */
    method GetVirtualWriterNode(master: SerialNode, ghost m: nat) returns (node: SerialNode?)
      requires Config() && Master(m) in nodeAt && nodeAt[Master(m)] == master
      ensures match FirstWriter(world.topo[m])
              case None => node == null
              case Some(w) => Virtual(m, w) in nodeAt && node == nodeAt[Virtual(m, w)]
    {
      ghost var flags := world.topo[m];
      FirstWriterIsFirst(flags);
      ghost var k: nat := 0;
      var cur := master.virtualHead;
      while cur != null
        invariant cur == At(nodeAt, Virtual(m, k)) && k <= |flags|
        invariant forall i :: 0 <= i < k ==> !flags[i]
        decreases |flags| - k
      {
        if cur.writer {
          return cur;
        }
        cur := cur.next;
        k := k + 1;
      }
      return null;
    }

    /** _serialEventFlags. */
    method EventFlags(node: SerialNode, ghost id: Id) returns (flags: Mask)
      requires Config() && id in nodeAt && nodeAt[id] == node
      ensures flags == Flags(world.topo, id)
    {
      flags := AE_NONE;
      if node.kind == MasterNode {
        flags := AE_READABLE;
        var writer := GetVirtualWriterNode(node, id.m);
        if writer != null {
          flags := flags.Or(AE_WRITABLE);
        }
      } else {
        flags := AE_WRITABLE;
        if node.writer {
          flags := flags.Or(AE_READABLE);
        }
      }
    }

    /** The parts of _serialFreeLink that delete the file event with the flags of the node, and clear its link. */
    method Detach(link: SerialLink, ghost id: Id)
      requires Valid() && id in nodeAt && nodeAt[id].link == link
      modifies el`interest, el`calls, el`maxfd, el.events, link.node`link
      ensures el.Valid() && el.events == old(el.events) && EmptySlotAt(link.fd)
      ensures id in world.links && link.fd == world.links[id].fd
      ensures Config() && nodeAt[id].link == null && forall n :: n in nodes && n != nodeAt[id] ==> n.link == old(n.link)
    {
      hide ListsOf, WellFormed;
      Neighbours(id);
      assert Linked(id);
      var flags := EventFlags(link.node, id);
      ghost var slots := el.events[..];
      el.DeleteFileEvent(link.fd, flags);
      assert forall k: nat :: k < |slots| ==> el.events[k] == Deleted(slots, link.fd, flags)[k];
      link.node.link := null;
    }

    /** _serialFreeLink: the slot is emptied before the descriptor can be handed out again. */
    method FreeLink(link: SerialLink, ghost id: Id)
      requires Valid() && id in nodeAt && nodeAt[id].link == link
      modifies this`world, el`interest, el`calls, el`maxfd, el.events, link.node`link
      ensures Valid() && world == Proxy.FreeLink(old(world), id)
      ensures link.fd < el.events.Length ==> el.events[link.fd].mask == AE_NONE
    {
      hide ListsOf, WellFormed;
      Neighbours(id);
      assert Linked(id);
      Detach(link, id);
      world := Proxy.FreeLink(world, id);
      ValidAfterFree(id);
    }

    /** _serialReadHandler; alive says whether the link is still there. */
    method ReadHandler(link: SerialLink, read: nat -> ReadResult, ghost id: Id) returns (alive: bool)
      requires Valid() && id in nodeAt && nodeAt[id].link == link && id in world.links
      modifies this`world, el`interest, el`calls, el`maxfd, el.events, link.node`link, link`recvbuf, link`recvbuflen
      ensures Valid() && world == Proxy.ReadHandler(old(world), id, read(old(link.fd)))
      ensures alive <==> id in world.links
      ensures alive ==> nodeAt[id].link == link && link.fd == old(link.fd)
    {
      assert Linked(id);
      match read(link.fd) {
        case Got(chunk) =>
          StoreChunk(link, chunk, id);
          alive := true;
        case Again =>
          alive := true;
        case Fail =>
          FreeLink(link, id);
          alive := false;
      }
    }

    /** _serialWriteLink; the source link may be absent. */
    method WriteLink(fromlink: SerialLink?, tolink: SerialLink, write: nat -> WriteResult, ghost from: Id, ghost to: Id)
      requires Valid() && to in nodeAt && nodeAt[to].link == tolink
      requires from in nodeAt && nodeAt[from].link == fromlink
      modifies this`world, el`interest, el`calls, el`maxfd, el.events, tolink.node`link
      ensures Valid() && world == Proxy.WriteLink(old(world), from, to, write(old(tolink.fd)))
    {
      hide ListsOf, WellFormed;
      Neighbours(from);
      Neighbours(to);
      assert Linked(from) && Linked(to);
      if fromlink != null && fromlink.recvbuflen > 0 {
        var buf := fromlink.recvbuf[..fromlink.recvbuflen];
        var nwrite := Accepted(write(tolink.fd), buf);
        Record(world.(log := world.log + [Write(world.cycle, to, from, buf, nwrite)]));
        if nwrite <= 0 {
          FreeLink(tolink, to);
        }
      }
    }

    /** _serialWriteHandler: a virtual takes from its master, a master from its first flagged virtual. */
    method WriteHandler(link: SerialLink, write: nat -> WriteResult, ghost id: Id)
      requires Valid() && id in nodeAt && nodeAt[id].link == link
      modifies this`world, el`interest, el`calls, el`maxfd, el.events, link.node`link
      ensures Valid() && Exists(old(world).topo, id)
      ensures world == Proxy.WriteHandler(old(world), id, write(old(link.fd)))
    {
      assert Linked(id);
      if link.node.kind == VirtualNode {
        assert link.node.virtualOf == nodeAt[Master(id.m)];
        WriteLink(link.node.virtualOf.link, link, write, Master(id.m), id);
      } else {
        var virtual := GetVirtualWriterNode(link.node, id.m);
        if virtual != null {
          WriteLink(virtual.link, link, write, Virtual(id.m, FirstWriter(world.topo[id.m]).value), id);
        }
      }
    }

    /** The effect on the receive buffer of a successful read. */
    method StoreChunk(link: SerialLink, chunk: Chunk, ghost id: Id)
      requires Valid() && id in nodeAt && nodeAt[id].link == link && id in world.links
      modifies this`world, link`recvbuf, link`recvbuflen
      ensures Valid() && world == Proxy.ReadHandler(old(world), id, Got(chunk))
    {
      hide ListsOf, WellFormed;
      Neighbours(id);
      assert Linked(id);
      link.recvbuf := chunk + link.recvbuf[|chunk|..];
      link.recvbuflen := |chunk|;
      world := Proxy.ReadHandler(world, id, Got(chunk));
      ValidAfterBuffer(id);
    }

    /**
     _serialEventHandler. The source calls the write part even when the read part has just freed the link; here that
     use is recorded as a fault instead of being carried out.
     */
    method EventHandler(link: SerialLink, mask: Mask, read: nat -> ReadResult, write: nat -> WriteResult, ghost id: Id)
      requires Valid() && id in nodeAt && nodeAt[id].link == link && id in world.links
      modifies this`world, el`interest, el`calls, el`maxfd, el.events, link.node`link, link`recvbuf, link`recvbuflen
      ensures Valid() && Exists(old(world).topo, id)
      ensures world == Handle(old(world), id, mask, read(old(link.fd)), write(old(link.fd)))
    {
      var alive := true;
      if mask.readable {
        alive := ReadHandler(link, read, id);
      }
      if mask.writable {
        if alive {
          WriteHandler(link, write, id);
        } else {
          Record(world.(fault := true));
        }
      }
    }

    /** The body of both loops of serialBeforeSleep. */
    method ClearIfUp(node: SerialNode, ghost id: Id)
      requires Valid() && id in nodeAt && nodeAt[id] == node
      modifies this`world, links`recvbuflen
      ensures Valid() && links == old(links) && world == ClearOne(old(world), id)
    {
      LinkOrNot(id);
      if node.link != null {
        node.link.recvbuflen := 0;
        world := ClearOne(world, id);
        BufferCleared(id);
      }
    }

    twostate lemma BufferCleared(id: Id)
      requires old(Valid()) && id in nodeAt && unchanged(el) && unchanged(el.events)
      requires Config() && links == old(links) && owner == old(owner) && world == ClearOne(old(world), id)
      requires forall n :: n in nodes ==> n.link == old(n.link)
      requires forall l :: l in links && l != nodeAt[id].link ==> unchanged(l)
      requires nodeAt[id].link != null && nodeAt[id].link in links
      requires var l := nodeAt[id].link;
               l.fd == old(l.fd) && l.node == old(l.node) && l.recvbuf == old(l.recvbuf) && l.recvbuflen == 0
      ensures Valid()
    {
      assert old(Linked(id));
      assert Linked(id);
      ValidAfterBuffer(id);
    }

    /** The inner loop of serialBeforeSleep. */
    method ClearVirtuals(node: SerialNode, ghost m: nat, ghost w: World)
      requires Valid() && Master(m) in nodeAt && nodeAt[Master(m)] == node
      requires world.topo == w.topo && WellFormed(w) && m < |w.topo| && world == ClearedTo(w, m, 1)
      modifies this`world, links`recvbuflen
      ensures Valid() && links == old(links) && world.topo == w.topo && world == ClearedTo(w, m + 1, 0)
    {
      hide Valid, Config, ListsOf, Linked, WellFormed, ClearedTo, ClearOne;
      ClearedNext(w, m);
      Places();
      Neighbours(Master(m));
      ghost var v: nat := 0;
      var vnode := node.virtualHead;
      while vnode != null
        invariant Valid() && links == old(links) && world.topo == w.topo
        invariant v <= |w.topo[m]| && vnode == At(nodeAt, Virtual(m, v)) && world == ClearedTo(w, m, v + 1)
        decreases |w.topo[m]| - v
      {
        Places();
        Neighbours(Virtual(m, v));
        ClearIfUp(vnode, Virtual(m, v));
        ClearedStep(w, m, v + 1);
        Neighbours(Virtual(m, v));
        vnode := vnode.next;
        v := v + 1;
      }
      Places();
    }

    /** serialBeforeSleep: no link starts a turn with bytes left from an earlier one. */
    method BeforeSleep()
      requires Valid()
      modifies this`world, links`recvbuflen
      ensures Valid() && links == old(links) && world == Proxy.BeforeSleep(old(world))
    {
      hide Valid, Config, ListsOf, Linked, WellFormed, ClearedTo, ClearOne, Proxy.BeforeSleep;
      ghost var w := world;
      Places();
      ClearedEnds(w);
      ghost var m: nat := 0;
      var node := masterHead;
      while node != null
        invariant Valid() && links == old(links) && world.topo == w.topo
        invariant m <= |w.topo| && node == At(nodeAt, Master(m)) && world == ClearedTo(w, m, 0)
        decreases |w.topo| - m
      {
        Places();
        ClearIfUp(node, Master(m));
        ClearedStep(w, m, 0);
        ClearVirtuals(node, m, w);
        Neighbours(Master(m));
        node := node.next;
        m := m + 1;
      }
      Places();
      Record(world.(cycle := world.cycle + 1));
    }

    // ---------- connecting ----------

    /** A descriptor that no link holds has an empty slot. */
    lemma FreeSlot(fd: nat)
      requires Valid() && fd < el.events.Length && forall a :: a in world.links ==> world.links[a].fd != fd
      ensures el.events[fd].mask == AE_NONE
    {
    }

    lemma NodesApart()
      requires Config()
      ensures forall a :: a in nodeAt ==> nodeAt[a] in nodes
      ensures forall a, b :: a in nodeAt && b in nodeAt && nodeAt[a] == nodeAt[b] ==> a == b
    {
    }

    lemma ConnectedWellFormed(w: World, id: Id, l: Link)
      requires WellFormed(w) && Exists(w.topo, id) && forall a :: a in w.links ==> w.links[a].fd != l.fd
      ensures WellFormed(w.(links := w.links[id := l]))
    {
    }

    /** Linking one device to a fresh descriptor keeps the state valid, whether or not it could be registered. */
    twostate lemma ValidAfterConnect(id: Id)
      requires old(Valid()) && id in nodeAt && id !in old(world.links) && id in world.links
      requires forall a :: a in old(world.links) ==> old(world.links[a].fd) != world.links[id].fd
      requires Config() && el.Valid() && el.events == old(el.events) && el.setsize == old(el.setsize)
      requires nodeAt[id].link != null && links == old(links) + {nodeAt[id].link}
      requires forall n :: n in nodes && n != nodeAt[id] ==> n.link == old(n.link)
      requires forall l :: l in old(links) ==> unchanged(l)
      requires world == old(world).(links := old(world.links)[id := world.links[id]]) && Exists(world.topo, id)
      requires var l, link := world.links[id], nodeAt[id].link;
               && link.node == nodeAt[id] && link.fd == l.fd && link.recvbuf == l.buf && link.recvbuflen == l.len
               && owner == (if l.registered then old(owner)[l.fd := id] else old(owner))
               && (forall k: nat :: k < el.events.Length && k != l.fd ==> el.events[k] == old(el.events[k]))
               && (if l.registered
                   then l.fd < el.events.Length && el.events[l.fd] == FileEvent(Flags(world.topo, id), Some(link))
                   else l.fd < el.events.Length ==> el.events[l.fd].mask == AE_NONE)
      ensures Valid()
    {
      hide ListsOf, WellFormed, MaxFd, Mirror;
      NodesApart();
      var fd := world.links[id].fd;
      ConnectedWellFormed(old(world), id, world.links[id]);
      assert Linked(id);
      forall other | other in nodeAt ensures Linked(other) {
        assert old(Linked(other));
        if other != id {
          assert nodeAt[other] != nodeAt[id];
          LinkedKept(other);
        }
      }
      forall k: nat | k < el.events.Length && el.events[k].mask != AE_NONE
        ensures k in owner && owner[k] in world.links
                && world.links[owner[k]].fd == k && world.links[owner[k]].registered
      {
        if k != fd {
          assert old(el.events[k].mask) != AE_NONE;
        }
      }
    }

    /** The end of _serialCreateLink: the result of aeCreateFileEvent is not looked at. */
    method Register(link: SerialLink, refused: bool, ghost id: Id)
      requires Valid() && id in nodeAt && nodeAt[id] == link.node && nodeAt[id].link == null
      requires forall a :: a in world.links ==> world.links[a].fd != link.fd
      modifies el`interest, el`calls, el`maxfd, el.events, link.node`link
      ensures el.Valid() && el.events == old(el.events) && Config() && Exists(world.topo, id)
      ensures nodeAt[id].link == link && forall n :: n in nodes && n != nodeAt[id] ==> n.link == old(n.link)
      ensures forall k: nat :: k < el.events.Length && k != link.fd ==> el.events[k] == old(el.events[k])
      ensures link.fd < el.events.Length ==>
                if refused then el.events[link.fd].mask == AE_NONE
                else el.events[link.fd] == FileEvent(Flags(world.topo, id), Some(link))
    {
      hide ListsOf, WellFormed, Linked, MaxFd, Mirror;
      Neighbours(id);
      var flags := EventFlags(link.node, id);
      ghost var slots := el.events[..];
      if link.fd < el.setsize {
        FreeSlot(link.fd);
      }
      var ok := el.CreateFileEvent(link.fd, flags, link, refused);
      assert forall k: nat :: k < |slots| ==>
        el.events[k] == if ok then Created(slots, link.fd, flags, link)[k] else slots[k];
      link.node.link := link;
    }

    /** The new link becomes part of the state. */
    method Attach(link: SerialLink, c: Connection, ghost id: Id)
      requires Valid() && id in nodeAt && nodeAt[id] == link.node && link.node.link == null && id !in world.links
      requires c.Opened? && link.fd == c.fd && link.recvbuf == Zeros() && link.recvbuflen == 0 && link !in links
      requires forall a :: a in world.links ==> world.links[a].fd != c.fd
      modifies this`world, this`links, this`owner, el`interest, el`calls, el`maxfd, el.events, link.node`link
      ensures Valid() && links == old(links) + {link} && world == Proxy.Connect(old(world), id, c)
    {
      hide Valid, ListsOf, WellFormed, Linked, MaxFd, Mirror;
      Neighbours(id);
      Layout();
      Register(link, c.refused, id);
      links := links + {link};
      world := Proxy.Connect(world, id, c);
      owner := if world.links[id].registered then owner[c.fd := id] else owner;
      ValidAfterConnect(id);
    }

    /** serialConnectNode on a node without a link. */
    method Connect(node: SerialNode, c: Connection, ghost id: Id)
      requires Valid() && id in nodeAt && nodeAt[id] == node && node.link == null && id !in world.links
      requires c.Opened? ==> forall a :: a in world.links ==> world.links[a].fd != c.fd
      modifies this`world, this`links, this`owner, el`interest, el`calls, el`maxfd, el.events, node`link
      ensures Valid() && old(links) <= links && fresh(links - old(links))
      ensures world == Proxy.Connect(old(world), id, c)
    {
      hide Valid, Config, ListsOf, WellFormed, Linked;
      if c.Opened? {
        var link := new SerialLink(node, c.fd);
        Attach(link, c, id);
      }
    }

    /** Connects a node that has no link; both loops of _serialReconnect do this. */
    method ConnectIfDown(node: SerialNode, c: Connection, ghost id: Id, ghost kernel: Id -> Connection, ghost w: World)
      requires Valid() && id in nodeAt && nodeAt[id] == node && c == kernel(id)
      requires FreshFds(w, kernel) && GrownFrom(w, world, kernel)
      modifies this`world, this`links, this`owner, el`interest, el`calls, el`maxfd, el.events, nodes`link
      ensures Valid() && old(links) <= links && fresh(links - old(links)) && GrownFrom(w, world, kernel)
      ensures world == Proxy.ConnectIfDown(old(world), id, kernel)
      ensures node.link != null <==> id in world.links
    {
      hide ListsOf, WellFormed, Linked;
      LinkOrNot(id);
      if node.link == null {
        Connect(node, c, id);
      }
      LinkOrNot(id);
    }

    /** One iteration of the inner loop of _serialReconnect. */
    method ConnectNext(vnode: SerialNode, c: Connection, ghost id: Id, ghost kernel: Id -> Connection, ghost w: World)
      returns (next: SerialNode?)
      requires Valid() && id in nodeAt && nodeAt[id] == vnode && c == kernel(id) && id.Virtual?
      requires FreshFds(w, kernel) && GrownFrom(w, world, kernel)
      modifies this`world, this`links, this`owner, el`interest, el`calls, el`maxfd, el.events, nodes`link
      ensures Valid() && old(links) <= links && fresh(links - old(links)) && GrownFrom(w, world, kernel)
      ensures world == Proxy.ConnectIfDown(old(world), id, kernel)
      ensures next == At(nodeAt, Virtual(id.m, id.v + 1))
    {
      hide Valid, Config, ListsOf, Linked, WellFormed, GrownFrom, FreshFds, Proxy.ConnectIfDown, MaxFd, Mirror;
      ConnectIfDown(vnode, c, id, kernel, w);
      Neighbours(id);
      next := vnode.next;
    }

    /** The inner loop of _serialReconnect. */
    method ReconnectVirtuals(node: SerialNode, m: nat, kernel: Id -> Connection, ghost w: World)
      requires Valid() && Master(m) in nodeAt && nodeAt[Master(m)] == node
      requires FreshFds(w, kernel) && GrownFrom(w, world, kernel)
      modifies this`world, this`links, this`owner, el`interest, el`calls, el`maxfd, el.events, nodes`link
      ensures Valid() && old(links) <= links && fresh(links - old(links)) && GrownFrom(w, world, kernel)
      ensures m < |old(world).topo|
      ensures world == Proxy.ReconnectVirtuals(old(world), m, |old(world).topo[m]|, kernel)
    {
      hide Valid, Config, ListsOf, Linked, WellFormed, GrownFrom, FreshFds, Proxy.ConnectIfDown, MaxFd, Mirror;
      ghost var w0 := world;
      Places();
      Neighbours(Master(m));
      var v: nat := 0;
      var vnode := node.virtualHead;
      while vnode != null
        invariant Valid() && old(links) <= links && fresh(links - old(links)) && GrownFrom(w, world, kernel)
        invariant v <= |w0.topo[m]| && vnode == At(nodeAt, Virtual(m, v)) && world.topo == w0.topo
        invariant world == Proxy.ReconnectVirtuals(w0, m, v, kernel)
        decreases |w0.topo[m]| - v
      {
        Places();
        vnode := ConnectNext(vnode, kernel(Virtual(m, v)), Virtual(m, v), kernel, w);
        v := v + 1;
      }
      Places();
    }

    /** One iteration of the outer loop of _serialReconnect. */
    method ReconnectMaster(node: SerialNode, m: nat, kernel: Id -> Connection, ghost w: World)
      requires Valid() && Master(m) in nodeAt && nodeAt[Master(m)] == node
      requires FreshFds(w, kernel) && GrownFrom(w, world, kernel)
      modifies this`world, this`links, this`owner, el`interest, el`calls, el`maxfd, el.events, nodes`link
      ensures Valid() && old(links) <= links && fresh(links - old(links)) && GrownFrom(w, world, kernel)
      ensures m < |old(world).topo| && world == Proxy.ReconnectMaster(old(world), m, kernel)
      ensures world.topo == old(world).topo
    {
      hide Valid, Config, ListsOf, Linked, WellFormed, GrownFrom, FreshFds, Proxy.ConnectIfDown,
           Proxy.ReconnectVirtuals, MaxFd, Mirror;
      Places();
      ConnectIfDown(node, kernel(Master(m)), Master(m), kernel, w);
      if node.link != null {
        ReconnectVirtuals(node, m, kernel, w);
      }
    }

    /** _serialReconnect: a virtual is connected only while its master is. */
    method Reconnect(kernel: Id -> Connection)
      requires Valid() && FreshFds(world, kernel)
      modifies this`world, this`links, this`owner, el`interest, el`calls, el`maxfd, el.events, nodes`link
      ensures Valid() && old(links) <= links && fresh(links - old(links))
      ensures world == Proxy.Reconnect(old(world), |old(world).topo|, kernel)
    {
      hide Valid, Config, ListsOf, Linked, WellFormed, GrownFrom, FreshFds, Proxy.ReconnectMaster,
           MaxFd, Mirror;
      ghost var w := world;
      NotGrown(w, kernel);
      Places();
      var m: nat := 0;
      var node := masterHead;
      while node != null
        invariant Valid() && old(links) <= links && fresh(links - old(links)) && GrownFrom(w, world, kernel)
        invariant m <= |w.topo| && node == At(nodeAt, Master(m)) && world.topo == w.topo
        invariant world == Proxy.Reconnect(w, m, kernel)
        decreases |w.topo| - m
      {
        Places();
        ReconnectMaster(node, m, kernel, w);
        Neighbours(Master(m));
        node := node.next;
        m := m + 1;
      }
      Places();
    }

    // ---------- dispatching ----------

    /** The device registered under a descriptor of the interest set. */
    lemma Owned(fd: nat)
      requires Valid() && fd in el.interest
      ensures fd < el.events.Length && fd in owner && owner[fd] in world.links && owner[fd] in nodeAt
      ensures Exists(world.topo, owner[fd])
      ensures world.links[owner[fd]].fd == fd && world.links[owner[fd]].registered
      ensures el.interest[fd] == ToInterest(Flags(world.topo, owner[fd]))
    {
      Places();
      assert Linked(owner[fd]);
    }

    /** The table slot of the descriptor that a device held when it was polled. */
    lemma SlotOf(w0: World, id: Id, fd: nat)
      requires Valid() && WellFormed(w0) && ShrunkFrom(w0, world)
      requires id in w0.links && Exists(w0.topo, id) && w0.links[id].fd == fd && fd < el.events.Length
      requires w0.links[id].registered
      ensures el.events[fd].mask == SlotMask(world, id)
      ensures SlotMask(world, id) != AE_NONE ==>
                && id in world.links && id in nodeAt && nodeAt[id].link != null
                && el.events[fd].client == Some(nodeAt[id].link) && nodeAt[id].link.fd == fd
                && nodeAt[id].link in links && nodeAt[id].link.node == nodeAt[id] && nodeAt[id] in nodes
                && world.links[id].fd == fd
    {
      hide ListsOf;
      Places();
      Neighbours(id);
      assert Linked(id);
      assert forall a :: a in world.links && world.links[a].fd == fd ==> a == id;
    }

    /** The entry of the fired array stands for the device that held its descriptor in state w. */
    ghost predicate Stands(w: World, es: seq<Entry>, j: nat)
      requires j < |es|
      reads el, el.fired
    {
      && j < el.fired.Length && el.fired[j].fd < el.setsize
      && es[j].id in w.links && Exists(w.topo, es[j].id)
      && w.links[es[j].id].registered && w.links[es[j].id].fd == el.fired[j].fd
    }

    /** One iteration of the readable loop of aeProcessEvents. */
    method DispatchReadable(j: nat, io: IO, ghost w0: World, ghost es: seq<Entry>)
      requires Valid() && WellFormed(w0) && ShrunkFrom(w0, world)
      requires j < |es| && Stands(w0, es, j) && el.fired[j].mask == es[j].mask
      modifies this`world, el`interest, el`calls, el`maxfd, el.events, el.fired
      modifies nodes`link, links`recvbuf, links`recvbuflen
      ensures Valid() && ShrunkFrom(w0, world) && world == ReadableStep(old(world), es[j], io)
      ensures forall i :: 0 <= i < el.fired.Length ==> el.fired[i].fd == old(el.fired[i].fd)
      ensures el.fired[j].mask == if SlotMask(old(world), es[j].id).And(es[j].mask).readable
                                  then es[j].mask.Minus(AE_READABLE) else es[j].mask
      ensures forall i :: 0 <= i < el.fired.Length && i != j ==> el.fired[i] == old(el.fired[i])
    {
      hide Valid, Config, ListsOf, Linked, WellFormed, ShrunkFrom, Handle;
      Sized();
      ghost var id := es[j].id;
      var fd := el.fired[j].fd;
      var mask := el.fired[j].mask;
      SlotOf(w0, id, fd);
      var fe := el.events[fd];
      if fe.mask.And(mask).readable {
        assert fe.client.Some?;
        HandleShrinks(w0, world, id, mask, io.read(fd), io.early(fd));
        EventHandler(fe.client.value, mask, io.read, io.early, id);
        el.fired[j] := FiredEvent(fd, mask.Minus(AE_READABLE));
      }
    }

    lemma Sized()
      requires Valid()
      ensures el.events.Length == el.setsize == el.fired.Length && WellFormed(world)
      ensures forall id :: id in nodeAt ==> nodeAt[id] in nodes
    {
    }

    /** One iteration of the writable loop of aeProcessEvents. */
    method DispatchWritable(j: nat, io: IO, ghost w0: World, ghost es: seq<Entry>)
      requires Valid() && WellFormed(w0) && ShrunkFrom(w0, world)
      requires j < |es| && Stands(w0, es, j) && el.fired[j].mask == es[j].mask
      modifies this`world, el`interest, el`calls, el`maxfd, el.events, el.fired
      modifies nodes`link, links`recvbuf, links`recvbuflen
      ensures Valid() && ShrunkFrom(w0, world) && world == WritableStep(old(world), es[j], io)
      ensures forall i :: 0 <= i < el.fired.Length && i != j ==> el.fired[i] == old(el.fired[i])
    {
      hide Valid, Config, ListsOf, Linked, WellFormed, ShrunkFrom, Handle;
      Sized();
      ghost var id := es[j].id;
      var fd := el.fired[j].fd;
      var mask := el.fired[j].mask;
      SlotOf(w0, id, fd);
      var fe := el.events[fd];
      if fe.mask.And(mask).writable {
        assert fe.client.Some?;
        HandleShrinks(w0, world, id, mask, io.read(fd), io.late(fd));
        EventHandler(fe.client.value, mask, io.read, io.late, id);
        el.fired[j] := FiredEvent(fd, mask.Minus(AE_WRITABLE));
      }
    }

    /** The fired array is the given entries, all standing for devices that w knows. */
    ghost predicate FiredArray(w: World, es: seq<Entry>)
      reads el, el.fired
    {
      |es| <= el.fired.Length && forall i :: 0 <= i < |es| ==> Stands(w, es, i) && el.fired[i].mask == es[i].mask
    }

    /** The readable loop of aeProcessEvents. */
    method ReadablePass(numevents: nat, io: IO, ghost es: seq<Entry>)
      requires Valid() && |es| == numevents && FiredArray(world, es)
      modifies this`world, el`interest, el`calls, el`maxfd, el.events, el.fired
      modifies nodes`link, links`recvbuf, links`recvbuflen
      ensures Valid() && ShrunkFrom(old(world), world) && world == ReadableLoop(old(world), es, io).w
      ensures FiredArray(old(world), ReadableLoop(old(world), es, io).es)
    {
      hide Valid, Config, ListsOf, Linked, WellFormed, ReadableStep, ReadableLoop, SlotMask;
      Sized();
      ghost var w0 := world;
      LoopStart(w0, io);
      for j := 0 to numevents
        invariant Valid() && ShrunkFrom(w0, world) && world == ReadableLoop(w0, es[..j], io).w
        invariant el.fired == old(el.fired) && el.setsize == old(el.setsize)
        invariant forall i :: 0 <= i < numevents ==> el.fired[i].fd == old(el.fired[i].fd)
        invariant forall i :: 0 <= i < j ==>
                    var e := ReadableLoop(w0, es[..j], io).es[i];
                    e.id == es[i].id && el.fired[i].mask == e.mask
        invariant forall i :: j <= i < numevents ==> el.fired[i].mask == es[i].mask
      {
        LoopStep(w0, es, j, io);
        assert old(Stands(w0, es, j));
        DispatchReadable(j, io, w0, es);
      }
      assert es[..numevents] == es;
      ghost var es' := ReadableLoop(w0, es, io).es;
      forall i | 0 <= i < |es'| ensures Stands(w0, es', i) && el.fired[i].mask == es'[i].mask {
        assert old(Stands(w0, es, i));
      }
    }

    /** The writable loop of aeProcessEvents. */
    method WritablePass(numevents: nat, io: IO, ghost w0: World, ghost es: seq<Entry>)
      requires Valid() && WellFormed(w0) && ShrunkFrom(w0, world) && |es| == numevents && FiredArray(w0, es)
      modifies this`world, el`interest, el`calls, el`maxfd, el.events, el.fired
      modifies nodes`link, links`recvbuf, links`recvbuflen
      ensures Valid() && ShrunkFrom(w0, world) && world == WritableLoop(old(world), es, io)
    {
      hide Valid, Config, ListsOf, Linked, WellFormed, ShrunkFrom, WritableStep;
      ghost var w1 := world;
      for j := 0 to numevents
        invariant Valid() && ShrunkFrom(w0, world) && world == WritableLoop(w1, es[..j], io)
        invariant forall i :: j <= i < numevents ==> Stands(w0, es, i) && el.fired[i].mask == es[i].mask
      {
        assert es[..j + 1][..j] == es[..j];
        assert Stands(w0, es, j);
        DispatchWritable(j, io, w0, es);
      }
      assert es[..numevents] == es;
    }

    /** What the kernel returned, by the devices that hold the descriptors. */
    lemma EntriesLegal(returned: seq<KernelEvent>)
      requires Valid() && KernelReturns(el.interest, returned)
      ensures var es := EntriesOf(owner, returned);
              && LegalEntries(world, es)
              && forall i :: 0 <= i < |es| ==>
                   && es[i].id in world.links && Exists(world.topo, es[i].id)
                   && world.links[es[i].id].fd == returned[i].fd && world.links[es[i].id].registered
                   && returned[i].fd < el.setsize && es[i].mask == FiredOf(returned[i]).mask
    {
      Sized();
      hide Valid, Config, ListsOf, Linked, WellFormed;
      forall i | 0 <= i < |returned|
        ensures returned[i].fd in owner && returned[i].fd in el.interest
        ensures returned[i].fd < el.setsize && owner[returned[i].fd] in world.links
        ensures Exists(world.topo, owner[returned[i].fd])
        ensures world.links[owner[returned[i].fd]].fd == returned[i].fd && world.links[owner[returned[i].fd]].registered
        ensures el.interest[returned[i].fd] == ToInterest(Flags(world.topo, owner[returned[i].fd]))
      {
        Owned(returned[i].fd);
      }
    }

    /**
     The file-event part of aeProcessEvents, from the poll to the end of the writable loop. Every entry the kernel
     returned is dispatched to the device that held its descriptor when it was polled, or to none once that device has
     lost its link; the outcome is one pass of the state machine over those devices.
     */
    method ProcessFileEvents(returned: seq<KernelEvent>, io: IO)
      requires Valid() && |returned| <= el.setsize && KernelReturns(el.interest, returned)
      modifies this`world, el`interest, el`calls, el`maxfd, el.events, el.fired
      modifies nodes`link, links`recvbuf, links`recvbuflen
      ensures Valid() && LegalEntries(old(world), EntriesOf(old(owner), returned))
      ensures forall i :: 0 <= i < |returned| ==>
                returned[i].fd in old(owner) && old(owner)[returned[i].fd] in old(world).links
                && old(world).links[old(owner)[returned[i].fd]].fd == returned[i].fd
      ensures world == FilePhase(old(world), EntriesOf(old(owner), returned), io)
      ensures links == old(links) && owner == old(owner)
    {
      hide Config, ListsOf, Linked, WellFormed, ShrunkFrom, LegalEntries, ReadableLoop,
           WritableLoop;
      ghost var w0 := world;
      ghost var es := EntriesOf(owner, returned);
      EntriesLegal(returned);
      var numevents := el.Poll(returned);
      assert FiredArray(world, es);
      ReadablePass(numevents, io, es);
      WritablePass(numevents, io, w0, ReadableLoop(w0, es, io).es);
    }

    // ---------- whole runs ----------

    /** The state is that of a legal run of the state machine from a state in which nothing had been read or written. */
    ghost predicate History()
      reads this`start, this`turns, this`world
    {
      start.log == [] && !start.fault && WellFormed(start) && LegalRun(start, turns) && world == Run(start, turns)
    }

    /** serialInit: the first connection of the configured devices; the run starts here. */
    method Init(kernel: Id -> Connection)
      requires Valid() && world == Start(world.topo, world.setsize) && FreshFds(world, kernel)
      modifies this`world, this`links, this`owner, el`interest, el`calls, el`maxfd, el.events, nodes`link
      modifies this`start, this`turns
      ensures Valid() && History() && old(links) <= links && fresh(links - old(links))
      ensures world == Proxy.Reconnect(old(world), |old(world).topo|, kernel) && turns == []
    {
      hide Valid, Config, ListsOf, Linked, FreshFds;
      ReconnectExact(world, |world.topo|, kernel);
      Reconnect(kernel);
      Places();
      start, turns := world, [];
    }

    /** One iteration of aeMain, from the before-sleep callback to the end of the timer phase. */
    method OneTurn(returned: seq<KernelEvent>, io: IO, reconnect: Option<Id -> Connection>)
      requires Valid() && History()
      requires |returned| <= el.setsize && KernelReturns(el.interest, returned)
      requires reconnect.Some? ==>
                 FreshFds(FilePhase(Proxy.BeforeSleep(world), EntriesOf(owner, returned), io), reconnect.value)
      modifies this`world, this`links, this`owner, el`interest, el`calls, el`maxfd, el.events, el.fired
      modifies nodes`link, links`recvbuf, links`recvbuflen, this`turns
      ensures Valid() && History() && old(links) <= links && fresh(links - old(links))
      ensures turns == old(turns) + [Turn(EntriesOf(old(owner), returned), io, reconnect)]
      ensures world == Proxy.OneTurn(old(world), Turn(EntriesOf(old(owner), returned), io, reconnect))
    {
      hide Valid, Config, ListsOf, Linked, WellFormed, FreshFds, LegalEntries, FilePhase, Proxy.BeforeSleep,
           Proxy.Reconnect, KernelReturns, Run, LegalRun, EntriesOf, MaxFd, Mirror;
      ghost var t := Turn(EntriesOf(owner, returned), io, reconnect);
      ghost var w := world;
      BeforeSleep();
      ProcessFileEvents(returned, io);
      EndTurn(w, t, reconnect);
    }

    /** The end of a turn that began in state w: the timer phase, with or without serialCron. */
    method EndTurn(ghost w: World, ghost t: Turn, reconnect: Option<Id -> Connection>)
      requires Valid() && Began(w) && world == FilePhase(Proxy.BeforeSleep(w), t.es, t.io)
      requires LegalTurn(w, t) && t.reconnect == reconnect
      modifies this`world, this`links, this`owner, el`interest, el`calls, el`maxfd, el.events
      modifies nodes`link, this`turns
      ensures Valid() && History() && old(links) <= links && fresh(links - old(links))
      ensures turns == old(turns) + [t] && world == Proxy.OneTurn(w, t)
    {
      hide Valid, Config, ListsOf, Linked, WellFormed, FreshFds, LegalEntries, FilePhase, Proxy.BeforeSleep,
           Proxy.Reconnect, Run, LegalRun, MaxFd, Mirror;
      if reconnect.Some? {
        SameMasters(w, t);
        Reconnect(reconnect.value);
      }
      RunExtends(start, turns, t);
      turns := turns + [t];
    }

    /** The turn under way began in state w, at the end of the run so far. */
    ghost predicate Began(w: World)
      reads this`start, this`turns
    {
      start.log == [] && !start.fault && WellFormed(start) && LegalRun(start, turns) && w == Run(start, turns)
    }
  }

  lemma SameMasters(w: World, t: Turn)
    requires LegalTurn(w, t)
    ensures FilePhase(Proxy.BeforeSleep(w), t.es, t.io).topo == w.topo
  {
    TopologyKept(Proxy.BeforeSleep(w), t.es, t.io);
  }

  /**
   In every state a server reaches, whatever was delivered to a device is, in order, a choice of nonempty prefixes of
   chunks its one source received in the same turn, no chunk more than once, or twice for a device registered both ways.
   */
  lemma ServerDelivers(server: Server, id: Id, from: Id) returns (idx: seq<nat>)
    requires server.History() && Exists(server.world.topo, id) && Source(server.world.topo, id) == Some(from)
    ensures Picks(Delivered(WritesTo(server.world.log, id)), ReadsOf(server.world.log, from), idx,
                  if Flags(server.world.topo, id).readable then 2 else 1)
  {
    RunKeepsTopology(server.start, server.turns);
    idx := RunDeliveries(server.start, server.turns, id, from);
  }

  /** As long as nothing failed, it is exactly what the source received whenever the device could take it. */
  lemma ServerDeliversExactly(server: Server, id: Id, from: Id)
    requires server.History() && ErrorFree(server.turns)
    requires Exists(server.world.topo, id) && Source(server.world.topo, id) == Some(from)
    ensures WritesTo(server.world.log, id) == RunOffers(server.start, server.turns, id, from)
  {
    RunKeepsTopology(server.start, server.turns);
    RunExact(server.start, server.turns, id, from);
  }

  /** A server has used a freed link if and only if, in some turn, a device fired both ways and its read failed. */
  lemma ServerFaultExactly(server: Server)
    requires server.History()
    ensures server.world.fault <==>
              exists k :: 0 <= k < |server.turns| && FaultyAt(server.start, server.turns, k)
  {
    RunFaultExactly(server.start, server.turns);
  }

  /** What epoll returned, with each descriptor replaced by the device that holds it. */
  ghost function EntriesOf(owner: map<nat, Id>, returned: seq<KernelEvent>): seq<Entry> {
    seq(|returned|, i requires 0 <= i < |returned| =>
      Entry(if returned[i].fd in owner then owner[returned[i].fd] else Master(0), FiredOf(returned[i]).mask))
  }

  lemma RunExtends(w: World, ts: seq<Turn>, t: Turn)
    ensures Run(w, ts + [t]) == Proxy.OneTurn(Run(w, ts), t)
    ensures LegalRun(w, ts + [t]) <==> LegalRun(w, ts) && LegalTurn(Run(w, ts), t)
  {
  }

  lemma LoopStart(w: World, io: IO)
    ensures ReadableLoop(w, [], io) == Progress(w, [])
  {
  }

  lemma LoopStep(w: World, es: seq<Entry>, j: nat, io: IO)
    requires j < |es|
    ensures var p, e := ReadableLoop(w, es[..j], io), es[j];
            ReadableLoop(w, es[..j + 1], io)
            == Progress(ReadableStep(p.w, e, io),
                        p.es + [if SlotMask(p.w, e.id).And(e.mask).readable
                                then e.(mask := e.mask.Minus(AE_READABLE)) else e])
  {
    assert es[..j + 1][..j] == es[..j];
  }

  /** Every link of w was in w0, or was opened since on the descriptor the kernel gave its device. */
  ghost predicate GrownFrom(w0: World, w: World, kernel: Id -> Connection) {
    forall a :: a in w.links ==>
      (a in w0.links && w.links[a].fd == w0.links[a].fd) || (kernel(a).Opened? && w.links[a].fd == kernel(a).fd)
  }

  lemma NotGrown(w: World, kernel: Id -> Connection)
    ensures GrownFrom(w, w, kernel)
  {
  }

  /** Dispatching never adds a link, and never moves one to another descriptor. */
  ghost predicate ShrunkFrom(w0: World, w: World) {
    && w.topo == w0.topo && w.setsize == w0.setsize
    && forall a :: a in w.links ==>
         a in w0.links && w.links[a].fd == w0.links[a].fd && w.links[a].registered == w0.links[a].registered
  }

  lemma HandleShrinks(w0: World, w: World, id: Id, mask: Mask, rd: ReadResult, wr: WriteResult)
    requires ShrunkFrom(w0, w) && Exists(w.topo, id) && id in w.links
    ensures ShrunkFrom(w0, Handle(w, id, mask, rd, wr))
  {
    var w' := Handle(w, id, mask, rd, wr);
    HandleFrame(w, id, mask, rd, wr, if id.Master? then Virtual(0, 0) else Master(0));
    forall a | a in w'.links
      ensures a in w.links && w'.links[a].fd == w.links[a].fd && w'.links[a].registered == w.links[a].registered
    {
      if a == id {
        HandleEffect(w, id, mask, rd, wr);
      } else {
        HandleFrame(w, id, mask, rd, wr, a);
      }
    }
  }
}
