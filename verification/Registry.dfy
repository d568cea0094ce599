/**
 The serial configuration handler on the heap (src/config.c) and the linked lists it builds (src/serial.c). The ghost
 field built is the value of the lists in module Configuration.
 */
module Registry {
  import opened Configuration
  import opened IniGrammar
  import opened SerialNodes

  /** The nodes reached from head through next are exactly s. */
  ghost predicate IsList(head: SerialNode?, s: seq<SerialNode>)
    reads s`next
  {
    && head == Nth(s, 0)
    && forall i :: 0 <= i < |s| ==> s[i].next == Nth(s, i + 1)
  }

  ghost function Nth(s: seq<SerialNode>, i: nat): SerialNode? {
    if i < |s| then s[i] else null
  }

  ghost predicate Distinct(s: seq<SerialNode>) {
    forall i, j :: 0 <= i < j < |s| ==> s[i] != s[j]
  }

  class Registry {
    var masterHead: SerialNode?
    ghost var masters: seq<SerialNode>
    ghost var virtuals: seq<seq<SerialNode>>
    // Every node in the lists.
    ghost var nodes: set<SerialNode>
    ghost var built: Masters

    ghost predicate MasterAt(i: nat)
      requires i < |masters| && |masters| <= |built| && masters[i] in nodes
      reads this, nodes
    {
      var node := masters[i];
      && node.kind == MasterNode && node.link == null && node.virtualOf == null
      && node.name == built[i].name && node.baudrate == built[i].baudrate
    }

    /** The virtuals of a master, each with its owner. */
    ghost predicate VirtualsAt(i: nat)
      requires i < |masters| && |masters| <= |built| && |masters| <= |virtuals| && masters[i] in nodes
      reads this, nodes
    {
      var vs := virtuals[i];
      && (forall v :: v in vs ==> v in nodes)
      && IsList(masters[i].virtualHead, vs) && Distinct(vs)
      && |vs| == |built[i].virtuals|
      && forall k {:trigger vs[k]} :: 0 <= k < |vs| ==>
           && vs[k].kind == VirtualNode && vs[k].link == null
           && vs[k].virtualOf == masters[i] && vs[k].virtualHead == null
           && vs[k].name == built[i].virtuals[k].name && vs[k].writer == built[i].virtuals[k].writer
    }

    ghost predicate Valid()
      reads this, nodes
    {
      && |masters| == |virtuals| == |built|
      && (forall node :: node in masters ==> node in nodes)
      && IsList(masterHead, masters) && Distinct(masters)
      && (forall i {:trigger MasterAt(i)} :: 0 <= i < |masters| ==> MasterAt(i))
      && (forall i {:trigger VirtualsAt(i)} :: 0 <= i < |masters| ==> VirtualsAt(i))
    }

    constructor ()
      ensures Valid() && built == [] && nodes == {}
    {
      masterHead := null;
      masters, virtuals, nodes, built := [], [], {}, [];
    }

    /** serialGetNode. */
    method GetNode(name: string) returns (node: SerialNode?)
      requires Valid()
      ensures node == Nth(masters, MasterIndex(built, name))
    {
      ghost var k: nat := 0;
      node := masterHead;
      while node != null
        invariant node == Nth(masters, k) && k <= |masters|
        invariant forall j :: 0 <= j < k ==> built[j].name != name
        decreases |masters| - k
      {
        assert MasterAt(k);
        if name == node.name {
          MasterIndexFirst(built, name, k);
          return;
        }
        node := node.next;
        k := k + 1;
      }
    }

    /** serialGetVirtualNode. */
    method GetVirtualNode(master: SerialNode, name: string, ghost i: nat) returns (node: SerialNode?)
      requires Valid() && i < |masters| && masters[i] == master
      ensures node == Nth(virtuals[i], VirtualIndex(built[i].virtuals, name))
    {
      assert VirtualsAt(i);
      ghost var vs := virtuals[i];
      ghost var k: nat := 0;
      node := master.virtualHead;
      while node != null
        invariant node == Nth(vs, k) && k <= |vs|
        invariant forall j :: 0 <= j < k ==> built[i].virtuals[j].name != name
        decreases |vs| - k
      {
        if name == node.name {
          VirtualIndexFirst(built[i].virtuals, name, k);
          return;
        }
        node := node.next;
        k := k + 1;
      }
    }

    /** serialAddNode, of a node that serialCreateNode just made. */
    method AddNode(node: SerialNode)
      requires Valid() && node !in nodes && node.kind == MasterNode
      requires node.next == null && node.virtualHead == null && node.virtualOf == null && node.link == null
      modifies this, node`next
      ensures Valid() && nodes == old(nodes) + {node}
      ensures masters == [node] + old(masters)
      ensures built == [MasterEntry(node.name, node.baudrate, [])] + old(built)
    {
      hide Valid, MasterAt, VirtualsAt, IsList, Distinct;
      if masterHead != null {
        node.next := masterHead;
      }
      masterHead := node;
      masters, virtuals := [node] + masters, [[]] + virtuals;
      nodes := nodes + {node};
      built := [MasterEntry(node.name, node.baudrate, [])] + built;
      ValidAfterFirst();
    }

    /** The lists stay described when one new master was put in front of the others. */
    twostate lemma ValidAfterFirst()
      requires old(Valid()) && |masters| > 0 && masters[0] !in old(nodes) && nodes == old(nodes) + {masters[0]}
      requires masters == [masters[0]] + old(masters) && virtuals == [[]] + old(virtuals)
      requires built == [MasterEntry(masters[0].name, masters[0].baudrate, [])] + old(built)
      requires masterHead == masters[0] && masters[0].next == old(masterHead)
      requires masters[0].virtualHead == null && masters[0].virtualOf == null
      requires masters[0].kind == MasterNode && masters[0].link == null
      requires forall n :: n in old(nodes) ==> unchanged(n)
      ensures Valid()
    {
      hide MasterAt, VirtualsAt;
      FirstMaster();
      forall i | 1 <= i < |masters|
        ensures MasterAt(i) && VirtualsAt(i) && masters[i].next == Nth(masters, i + 1)
      {
        assert old(MasterAt(i - 1)) && old(VirtualsAt(i - 1));
        assert masters[i] == old(masters)[i - 1] && old(masters[i - 1].next) == Nth(old(masters), i);
        MasterShifted(i);
      }
    }

    lemma FirstMaster()
      requires |masters| == |virtuals| == |built| && |masters| > 0 && masters[0] in nodes
      requires virtuals[0] == [] && masters[0].virtualHead == null && masters[0].virtualOf == null
      requires built[0] == MasterEntry(masters[0].name, masters[0].baudrate, [])
      requires masters[0].kind == MasterNode && masters[0].link == null
      ensures MasterAt(0) && VirtualsAt(0)
    {
    }

    /** A master and its virtuals stay described one place further in the list. */
    twostate lemma MasterShifted(i: nat)
      requires 1 <= i < |masters| == |virtuals| == |built| && nodes >= old(nodes)
      requires |old(masters)| == |old(virtuals)| == |old(built)| == |masters| - 1
      requires masters[i] == old(masters)[i - 1] && virtuals[i] == old(virtuals)[i - 1] && built[i] == old(built)[i - 1]
      requires masters[i] in old(nodes) && old(MasterAt(i - 1)) && old(VirtualsAt(i - 1))
      requires forall n :: n in old(nodes) ==> unchanged(n)
      ensures MasterAt(i) && VirtualsAt(i)
    {
      hide Distinct;
      var vs := virtuals[i];
      forall k {:trigger vs[k]} | 0 <= k < |vs| ensures vs[k] in nodes && unchanged(vs[k]) {
        assert vs[k] in old(virtuals)[i - 1];
      }
    }

    /** The list of masters stays described when neither its links nor what is said of each master change. */
    twostate lemma MastersKept()
      requires old(Valid()) && masters == old(masters) && masterHead == old(masterHead) && nodes >= old(nodes)
      requires |built| == |virtuals| == |masters| == |old(built)|
      requires forall i {:trigger masters[i]} :: 0 <= i < |masters| ==>
                 var node := masters[i];
                 && node.next == old(node.next) && node.link == old(node.link) && node.virtualOf == old(node.virtualOf)
                 && built[i].name == old(built[i].name) && node.name == old(node.name)
                 && (node.baudrate == built[i].baudrate
                     || (node.baudrate == old(node.baudrate) && built[i].baudrate == old(built[i].baudrate)))
      requires forall i :: 0 <= i < |masters| ==> masters[i] in nodes && VirtualsAt(i)
      ensures Valid()
    {
      hide VirtualsAt;
      assert forall node :: node in masters ==> node in old(masters);
      forall i | 0 <= i < |masters| ensures MasterAt(i) && masters[i].next == Nth(masters, i + 1) {
        assert old(MasterAt(i)) && old(masters[i].next) == Nth(masters, i + 1);
      }
    }

    /** The virtuals of a master stay described when neither they, nor their order, nor their master change. */
    twostate lemma VirtualsKept(j: nat)
      requires j < |masters| && masters == old(masters) && nodes >= old(nodes)
      requires |masters| == |virtuals| == |built| == |old(built)| == |old(virtuals)|
      requires masters[j] in old(nodes) && old(VirtualsAt(j))
      requires virtuals[j] == old(virtuals[j]) && built[j].virtuals == old(built[j]).virtuals
      requires masters[j].virtualHead == old(masters[j].virtualHead)
      requires forall v :: v in virtuals[j] ==> unchanged(v)
      ensures VirtualsAt(j)
    {
      hide Distinct, MasterAt;
      var vs := virtuals[j];
      forall k {:trigger vs[k]} | 0 <= k < |vs| ensures vs[k] in nodes && unchanged(vs[k]) {
        assert vs[k] in virtuals[j];
      }
    }

    /** The virtuals of a master are described after one was put in front of them. */
    twostate lemma VirtualAdded(i: nat)
      requires i < |masters| && masters == old(masters) && nodes >= old(nodes)
      requires |masters| == |virtuals| == |built| == |old(built)| == |old(virtuals)|
      requires masters[i] in old(nodes) && old(VirtualsAt(i))
      requires |virtuals[i]| > 0 && virtuals[i][1..] == old(virtuals[i])
      requires forall v :: v in old(virtuals[i]) ==> v in nodes && unchanged(v)
      requires |built[i].virtuals| > 0 && built[i].virtuals[1..] == old(built[i]).virtuals
      requires var v := virtuals[i][0];
               && v in nodes && v !in old(virtuals[i])
               && masters[i].virtualHead == v && v.next == old(masters[i].virtualHead)
               && v.kind == VirtualNode && v.link == null && v.virtualOf == masters[i] && v.virtualHead == null
               && v.name == built[i].virtuals[0].name && v.writer == built[i].virtuals[0].writer
      ensures VirtualsAt(i)
    {
      var vs, us := virtuals[i], old(virtuals[i]);
      assert vs == [vs[0]] + us;
      assert old(masters[i].virtualHead) == Nth(us, 0);
      forall k {:trigger vs[k]} | 1 <= k < |vs|
        ensures vs[k] == us[k - 1] && vs[k].next == Nth(vs, k + 1)
        ensures built[i].virtuals[k] == old(built[i]).virtuals[k - 1] && vs[k] in nodes && unchanged(vs[k])
      {
        assert us[k - 1] in us && us[k - 1].next == old(us[k - 1].next) == Nth(us, k);
        assert built[i].virtuals[k] == built[i].virtuals[1..][k - 1];
      }
    }

    twostate lemma OldVirtuals(j: nat)
      requires old(Valid()) && j < |old(masters)|
      ensures old(masters[j]) in old(nodes) && |old(masters)| == |old(virtuals)| == |old(built)| && old(VirtualsAt(j))
    {
    }

    /** Masters and virtuals are different nodes, and no node is in two places. */
    lemma Apart()
      requires Valid()
      ensures |masters| == |virtuals| == |built| && Distinct(masters)
      ensures forall i :: 0 <= i < |masters| ==> masters[i] in nodes && masters[i].kind == MasterNode
      ensures forall i, v :: 0 <= i < |masters| && v in virtuals[i] ==>
                v in nodes && v.kind == VirtualNode && v.virtualOf == masters[i]
      ensures forall i {:trigger virtuals[i]} :: 0 <= i < |masters| ==>
                Distinct(virtuals[i]) && |virtuals[i]| == |built[i].virtuals|
    {
      forall i | 0 <= i < |masters|
        ensures masters[i].kind == MasterNode && Distinct(virtuals[i]) && |virtuals[i]| == |built[i].virtuals|
        ensures forall v :: v in virtuals[i] ==> v in nodes && v.kind == VirtualNode && v.virtualOf == masters[i]
      {
        assert MasterAt(i) && VirtualsAt(i);
      }
    }

    /** The lists stay described when one new virtual was put in front of those of master i. */
    twostate lemma ValidAfterAdd(i: nat)
      requires old(Valid()) && i < |masters| && masters == old(masters) && masterHead == old(masterHead)
      requires |masters| == |virtuals| == |built| == |old(built)| == |old(virtuals)|
      requires |virtuals[i]| > 0 && virtuals == old(virtuals)[i := [virtuals[i][0]] + old(virtuals[i])]
      requires |built[i].virtuals| > 0
      requires built == old(built)[i := old(built[i]).(virtuals := [built[i].virtuals[0]] + old(built[i].virtuals))]
      requires forall node :: node in old(nodes) && node != masters[i] ==> unchanged(node)
      requires var m := masters[i];
               && m.name == old(m.name) && m.baudrate == old(m.baudrate) && m.next == old(m.next)
               && m.link == old(m.link) && m.virtualOf == old(m.virtualOf)
      requires var v := virtuals[i][0];
               && v !in old(nodes) && nodes == old(nodes) + {v}
               && masters[i].virtualHead == v && v.next == old(masters[i].virtualHead)
               && v.kind == VirtualNode && v.link == null && v.virtualOf == masters[i] && v.virtualHead == null
               && v.name == built[i].virtuals[0].name && v.writer == built[i].virtuals[0].writer
      ensures Valid()
    {
      hide Valid, MasterAt, VirtualsAt, IsList;
      Before();
      forall j | 0 <= j < |masters| ensures masters[j] in nodes && VirtualsAt(j) {
        OldVirtuals(j);
        if j != i {
          assert masters[j] != masters[i];
          VirtualsKept(j);
        } else {
          assert forall v :: v in old(virtuals[i]) ==> v in nodes && unchanged(v);
          VirtualAdded(i);
        }
      }
      MastersKept();
    }

    twostate lemma Before()
      requires old(Valid())
      ensures old(Distinct(masters) && |masters| == |virtuals| == |built|)
      ensures forall i :: 0 <= i < |old(masters)| ==>
                old(masters[i]) in old(nodes) && old(masters)[i].kind == MasterNode
      ensures forall i, v :: 0 <= i < |old(masters)| && v in old(virtuals)[i] ==>
                v in old(nodes) && v.kind == VirtualNode && old(v.virtualOf) == old(masters)[i]
    {
      forall i | 0 <= i < |old(masters)|
        ensures old(masters[i]) in old(nodes) && old(masters)[i].kind == MasterNode
        ensures forall v :: v in old(virtuals)[i] ==>
                  v in old(nodes) && v.kind == VirtualNode && old(v.virtualOf) == old(masters)[i]
      {
        assert old(MasterAt(i)) && old(VirtualsAt(i));
      }
    }

    /** serialAddVirtualNode, of a node that serialCreateNode just made. */
    method AddVirtualNode(master: SerialNode, virtual: SerialNode, ghost i: nat)
      requires Valid() && i < |masters| && masters[i] == master
      requires virtual !in nodes && virtual.kind == VirtualNode
      requires virtual.next == null && virtual.virtualHead == null && virtual.link == null
      modifies this`virtuals, this`nodes, this`built, master`virtualHead, virtual`next, virtual`virtualOf
      ensures Valid() && nodes == old(nodes) + {virtual}
      ensures virtuals == old(virtuals)[i := [virtual] + old(virtuals[i])]
      ensures built == old(built)[i := old(built[i]).(virtuals :=
                         [VirtualEntry(virtual.name, virtual.writer)] + old(built[i].virtuals))]
    {
      hide Valid, MasterAt, VirtualsAt, IsList, Distinct;
      Apart();
      if master.virtualHead != null {
        virtual.next := master.virtualHead;
      }
      master.virtualHead := virtual;
      virtual.virtualOf := master;
      virtuals := virtuals[i := [virtual] + virtuals[i]];
      nodes := nodes + {virtual};
      built := built[i := built[i].(virtuals := [VirtualEntry(virtual.name, virtual.writer)] + built[i].virtuals)];
      ValidAfterAdd(i);
    }

    /** The part of the handler that makes sure the section has its master. */
    method EnsureNode(section: string) returns (node: SerialNode)
      requires Valid()
      modifies this
      ensures Valid() && nodes >= old(nodes) && fresh(nodes - old(nodes))
      ensures built == EnsureMaster(old(built), section)
      ensures Target(old(built), section) < |masters| && node == masters[Target(old(built), section)]
    {
      var found := GetNode(section);
      if found != null {
        return found;
      }
      node := new SerialNode(Stored(section), MasterNode);
      AddNode(node);
    }

    method SetBaudrate(node: SerialNode, baudrate: int, ghost i: nat)
      requires Valid() && i < |masters| && masters[i] == node
      modifies this`built, node`baudrate
      ensures Valid() && built == old(built)[i := old(built[i]).(baudrate := baudrate)]
    {
      hide Valid, MasterAt, VirtualsAt, IsList;
      Apart();
      node.baudrate := baudrate;
      built := built[i := built[i].(baudrate := baudrate)];
      forall j | 0 <= j < |masters| ensures masters[j] in nodes && VirtualsAt(j) {
        OldVirtuals(j);
        VirtualsKept(j);
      }
      MastersKept();
    }

    twostate lemma WriterSet(i: nat)
      requires i < |masters| && masters == old(masters) && nodes == old(nodes) && virtuals == old(virtuals)
      requires |masters| == |virtuals| == |built| == |old(built)|
      requires masters[i] in nodes && old(VirtualsAt(i)) && |built[i].virtuals| == |virtuals[i]|
      requires |virtuals[i]| == |old(built[i]).virtuals|
      requires unchanged(masters[i])
      requires forall v :: v in nodes ==>
                 && v.next == old(v.next) && v.name == old(v.name) && v.virtualOf == old(v.virtualOf)
                 && v.link == old(v.link) && v.virtualHead == old(v.virtualHead)
      requires forall k :: 0 <= k < |virtuals[i]| ==>
                 var v, e, e0 := virtuals[i][k], built[i].virtuals[k], old(built[i]).virtuals[k];
                 v in nodes && e.name == e0.name && (v.writer == e.writer || (unchanged(v) && e == e0))
      ensures VirtualsAt(i)
    {
    }

    method SetWriter(node: SerialNode, ghost i: nat, ghost k: nat)
      requires Valid() && i < |masters| && k < |virtuals[i]| && virtuals[i][k] == node
      requires k < |built[i].virtuals|
      modifies this`built, node`writer
      ensures Valid()
      ensures built == old(built)[i := old(built[i]).(virtuals :=
                         old(built[i].virtuals)[k := old(built[i].virtuals[k]).(writer := true)])]
    {
      hide Valid, MasterAt, VirtualsAt, IsList;
      Apart();
      assert virtuals[i][k] in virtuals[i] && node.virtualOf == masters[i];
      forall j | 0 <= j < |masters| && j != i ensures masters[j] != masters[i] && node !in virtuals[j] {
        assert node.virtualOf != masters[j];
      }
      node.writer := true;
      built := built[i := built[i].(virtuals := built[i].virtuals[k := built[i].virtuals[k].(writer := true)])];
      forall j | 0 <= j < |masters| ensures masters[j] in nodes && VirtualsAt(j) {
        OldVirtuals(j);
        if j != i {
          VirtualsKept(j);
        } else {
          WriterSet(i);
        }
      }
      MastersKept();
    }

    /** The strtok loop of the handler. */
    method AddVirtuals(node: SerialNode, section: string, value: string, ghost i: nat) returns (ok: bool)
      requires Valid() && i < |masters| && masters[i] == node
      modifies this`virtuals, this`nodes, this`built, nodes`virtualHead
      ensures Valid() && nodes >= old(nodes) && fresh(nodes - old(nodes))
      ensures ok <==> AddTokens(old(built[i].virtuals), section, Tokens(value)).Some?
      ensures ok ==> built == old(built)[i := old(built[i]).(virtuals :=
                                AddTokens(old(built[i].virtuals), section, Tokens(value)).value)]
    {
      hide Valid, Tokens, AddVirtual, Distinct;
      Apart();
      var tokens := Tokens(value);
      for k := 0 to |tokens|
        invariant Valid() && nodes >= old(nodes) && fresh(nodes - old(nodes)) && masters == old(masters)
        invariant |built| == |old(built)|
        invariant AddTokens(old(built[i].virtuals), section, tokens[..k]).Some?
        invariant built == old(built)[i := old(built[i]).(virtuals :=
                             AddTokens(old(built[i].virtuals), section, tokens[..k]).value)]
      {
        assert tokens[..k + 1][..k] == tokens[..k];
        var name := VirtualName(section, tokens[k]);
        if name.None? {
          NeverAfter(old(built[i].virtuals), section, tokens, k + 1);
          return false;
        }
        AddOne(node, name.value, i);
      }
      assert tokens[..|tokens|] == tokens;
      return true;
    }

    /** One turn of the strtok loop. */
    method AddOne(node: SerialNode, name: string, ghost i: nat)
      requires Valid() && i < |masters| && masters[i] == node
      modifies this`virtuals, this`nodes, this`built, node`virtualHead
      ensures Valid() && nodes >= old(nodes) && fresh(nodes - old(nodes))
      ensures built == old(built)[i := old(built[i]).(virtuals := AddVirtual(old(built[i].virtuals), name))]
    {
      var vnode := GetVirtualNode(node, name, i);
      assert VirtualsAt(i);
      if vnode == null {
        vnode := new SerialNode(Stored(name), VirtualNode);
        AddVirtualNode(node, vnode, i);
      }
    }

    /** The writer setting. */
    method FlagAsWriter(node: SerialNode, name: string, ghost i: nat)
      requires Valid() && i < |masters| && masters[i] == node
      modifies this`built, nodes`writer
      ensures Valid()
      ensures built == old(built)[i := old(built[i]).(virtuals := FlagWriter(old(built[i].virtuals), name))]
    {
      var vnode := GetVirtualNode(node, name, i);
      assert VirtualsAt(i);
      if vnode != null {
        SetWriter(vnode, i, VirtualIndex(built[i].virtuals, name));
      }
    }

    /** _serialConfigHandler; Exited stands for its calls of exit(1), after which nothing runs. */
    method ConfigHandler(c: Call) returns (verdict: Verdict)
      requires Valid()
      modifies this, nodes
      ensures Valid() && nodes >= old(nodes) && fresh(nodes - old(nodes))
      ensures verdict == Handle(old(built), c).1
      ensures !verdict.Exited? ==> built == Handle(old(built), c).0
    {
      hide Valid;
      var node := EnsureNode(c.section);
      ghost var i := Target(old(built), c.section);
      Apart();
      if SameIgnoringCase(c.name, "baudrate") {
        SetBaudrate(node, Atoi(c.value), i);
      } else if SameIgnoringCase(c.name, "virtuals") {
        var ok := AddVirtuals(node, c.section, c.value, i);
        if !ok {
          return Exited;
        }
      } else if SameIgnoringCase(c.name, "writer") {
        var name := VirtualName(c.section, c.value);
        if name.None? {
          return Exited;
        }
        FlagAsWriter(node, name.value, i);
      } else {
        return Rejected;
      }
      return Accepted;
    }
  }

  lemma {:induction false} MasterIndexFirst(ms: Masters, name: string, k: nat)
    requires k < |ms| && ms[k].name == name && forall j :: 0 <= j < k ==> ms[j].name != name
    ensures MasterIndex(ms, name) == k
  {
  }

  lemma {:induction false} VirtualIndexFirst(vs: seq<VirtualEntry>, name: string, k: nat)
    requires k < |vs| && vs[k].name == name && forall j :: 0 <= j < k ==> vs[j].name != name
    ensures VirtualIndex(vs, name) == k
  {
  }

  /** Once a name does not fit, the setting fails. */
  lemma {:induction false} NeverAfter(vs: seq<VirtualEntry>, section: string, tokens: seq<string>, k: nat)
    requires k <= |tokens| && AddTokens(vs, section, tokens[..k]).None?
    ensures AddTokens(vs, section, tokens).None?
    decreases |tokens|
  {
    if k == |tokens| {
      assert tokens[..k] == tokens;
    } else {
      var less := tokens[..|tokens| - 1];
      assert less[..k] == tokens[..k];
      NeverAfter(vs, section, less, k);
    }
  }
}
