/** serialInit (src/serial.c): from the lines of the configuration file to a connected server. */
module Startup {
  import opened EventTable
  import opened IniGrammar
  import opened IniParser
  import opened Proxy
  import opened ProxyServer
  import opened Registry
  import opened SerialNodes
  import C = Configuration
  import opened ConfigurationTheorems

  /** For each master, in list order, the writer flags of its virtuals, in list order. */
  function TopologyOf(ms: C.Masters): (topo: Topology)
    ensures |topo| == |ms| && forall m :: 0 <= m < |ms| ==> |topo[m]| == |ms[m].virtuals|
  {
    seq(|ms|, m requires 0 <= m < |ms| => FlagsOf(ms[m].virtuals))
  }

  function FlagsOf(vs: seq<C.VirtualEntry>): (flags: seq<bool>)
    ensures |flags| == |vs|
  {
    seq(|vs|, v requires 0 <= v < |vs| => vs[v].writer)
  }

  ghost function IdsOf(topo: Topology): (ids: set<Id>)
    ensures forall id :: id in ids <==> Exists(topo, id)
  {
    var masters := set m: nat | m < |topo| :: Master(m);
    var virtuals := set m: nat, v: nat | m < |topo| && v < |topo[m]| :: Virtual(m, v);
    masters + virtuals
  }

  ghost function NodeFor(reg: Registry, id: Id): (node: SerialNode)
    requires reg.Valid() && Exists(TopologyOf(reg.built), id)
    reads reg, reg.nodes
  {
    assert reg.VirtualsAt(id.m);
    match id
    case Master(m) => reg.masters[m]
    case Virtual(m, v) => reg.virtuals[m][v]
  }

  ghost function NodeMap(reg: Registry): (nodeAt: map<Id, SerialNode>)
    requires reg.Valid()
    reads reg, reg.nodes
    ensures forall id :: id in nodeAt <==> Exists(TopologyOf(reg.built), id)
    ensures forall id :: id in nodeAt ==> nodeAt[id] == NodeFor(reg, id)
  {
    map id | id in IdsOf(TopologyOf(reg.built)) :: NodeFor(reg, id)
  }

  /** What the registry says of one node. */
  lemma NodeIs(reg: Registry, id: Id)
    requires reg.Valid() && Exists(TopologyOf(reg.built), id)
    ensures var node, nodeAt := NodeFor(reg, id), NodeMap(reg);
            && node in reg.nodes && node.link == null
            && node.kind == (if id.Master? then MasterNode else VirtualNode)
            && node.next == At(nodeAt, if id.Master? then Master(id.m + 1) else Virtual(id.m, id.v + 1))
            && node.virtualHead == (if id.Master? then At(nodeAt, Virtual(id.m, 0)) else null)
            && (id.Virtual? ==>
                  && node.virtualOf == At(nodeAt, Master(id.m))
                  && node.writer == TopologyOf(reg.built)[id.m][id.v])
  {
    hide NodeMap, TopologyOf, Distinct;
    assert reg.MasterAt(id.m) && reg.VirtualsAt(id.m);
    NodesAre(reg, id.m);
    if id.Virtual? {
      assert reg.virtuals[id.m][id.v].next == Nth(reg.virtuals[id.m], id.v + 1);
      assert TopologyOf(reg.built)[id.m][id.v] == reg.built[id.m].virtuals[id.v].writer by { FlagIs(reg.built, id); }
    }
  }

  lemma FlagIs(ms: C.Masters, id: Id)
    requires Exists(TopologyOf(ms), id) && id.Virtual?
    ensures TopologyOf(ms)[id.m][id.v] == ms[id.m].virtuals[id.v].writer
  {
  }

  /** The map gives what the lists hold at each place, and nothing past their ends. */
  lemma NodesAre(reg: Registry, m: nat)
    requires reg.Valid() && m < |reg.built|
    ensures |reg.masters| == |reg.virtuals| == |reg.built| && |reg.virtuals[m]| == |reg.built[m].virtuals|
    ensures forall k: nat :: At(NodeMap(reg), Master(k)) == Nth(reg.masters, k)
    ensures forall k: nat :: At(NodeMap(reg), Virtual(m, k)) == Nth(reg.virtuals[m], k)
  {
    hide NodeMap;
    assert reg.VirtualsAt(m);
  }

  /** No node is in two places. */
  lemma PlacesDiffer(reg: Registry, a: Id, b: Id)
    requires reg.Valid() && Exists(TopologyOf(reg.built), a) && Exists(TopologyOf(reg.built), b)
    requires NodeFor(reg, a) == NodeFor(reg, b)
    ensures a == b
  {
    NodeIs(reg, a);
    NodeIs(reg, b);
    assert reg.VirtualsAt(a.m) && reg.VirtualsAt(b.m);
  }

  /** The lists of the registry are those the server works on. */
  lemma RegistryLists(reg: Registry)
    requires reg.Valid()
    ensures ListsOf(reg.nodes, NodeMap(reg), reg.masterHead, TopologyOf(reg.built))
    ensures forall id :: id in NodeMap(reg) ==> NodeMap(reg)[id].link == null
  {
    var nodeAt := NodeMap(reg);
    assert reg.masterHead == At(nodeAt, Master(0));
    forall a, b | a in nodeAt && b in nodeAt && nodeAt[a] == nodeAt[b] ensures a == b {
      PlacesDiffer(reg, a, b);
    }
    forall id | id in nodeAt
      ensures nodeAt[id] in reg.nodes && nodeAt[id].link == null
      ensures nodeAt[id].kind == if id.Master? then MasterNode else VirtualNode
      ensures nodeAt[id].next == At(nodeAt, if id.Master? then Master(id.m + 1) else Virtual(id.m, id.v + 1))
      ensures nodeAt[id].virtualHead == if id.Master? then At(nodeAt, Virtual(id.m, 0)) else null
      ensures id.Virtual? ==> nodeAt[id].virtualOf == At(nodeAt, Master(id.m))
      ensures id.Virtual? ==> nodeAt[id].writer == TopologyOf(reg.built)[id.m][id.v]
    {
      NodeIs(reg, id);
    }
  }

  /** The handler calls that the lines of a file lead to. */
  function FileCalls(lines: seq<Line>): seq<Call> {
    Parse(Texts(lines), _ => true).calls
  }

  /** Whether the handler answers 1: for its three settings, whatever their values. */
  predicate Known(c: Call) {
    || C.SameIgnoringCase(c.name, "baudrate")
    || C.SameIgnoringCase(c.name, "virtuals")
    || C.SameIgnoringCase(c.name, "writer")
  }

  /** These are the settings that the handler does not reject, whatever it has built. */
  lemma KnownAreTaken(ms: C.Masters, c: Call)
    ensures Known(c) <==> !C.Handle(ms, c).1.Rejected?
  {
    hide C.AddTokens, C.Tokens, C.SameIgnoringCase, C.EnsureMaster;
  }

  function Answers(calls: seq<Call>): nat -> bool {
    (i: nat) => i < |calls| && Known(calls[i])
  }

  lemma {:induction false} CallsGrow(lines: seq<string>, k: nat, accept: nat -> bool)
    requires k <= |lines|
    ensures Parse(lines[..k], accept).calls <= Parse(lines, accept).calls
    decreases |lines|
  {
    if k == |lines| {
      assert lines[..k] == lines;
    } else {
      hide Parse;
      CallsGrow(lines[..|lines| - 1], k, accept);
      assert lines[..|lines| - 1][..k] == lines[..k];
      OneMore(lines, accept);
    }
  }

  lemma OneMore(lines: seq<string>, accept: nat -> bool)
    requires lines != []
    ensures var p := Parse(lines[..|lines| - 1], accept);
            var o := ParseLineAt(p.context, lines[|lines| - 1], |lines|);
            && Parse(lines, accept) == Advance(p, o, |lines|, accept)
            && p.calls <= Parse(lines, accept).calls
  {
  }

  /** The call made for a line is the one the whole file has at that place. */
  lemma CallInFile(lines: seq<Line>, k: nat, accept: nat -> bool)
    requires k < |lines|
    ensures |Texts(lines)| == |lines|
    ensures var p := Parse(Texts(lines)[..k], accept);
            var o := ParseLineAt(p.context, CStr(lines[k]), k + 1);
            && Parse(Texts(lines)[..k + 1], accept) == Advance(p, o, k + 1, accept)
            && p.calls <= FileCalls(lines)
            && (o.Continue? || o.Pair? ==> |p.calls| < |FileCalls(lines)| && FileCalls(lines)[|p.calls|] == o.call)
  {
    hide Parse, ParseLineAt;
    TextsAt(lines, k);
    var texts := Texts(lines);
    OneMore(texts[..k + 1], accept);
    CallsGrow(texts, k, accept);
    CallsGrow(texts, k + 1, accept);
    CallsIgnoreAnswers(texts, accept, _ => true);
  }

  lemma CallsFit(lines: seq<Line>)
    ensures C.AllFit(FileCalls(lines))
  {
    TextsLength(lines);
    ParsedCallsFit(Texts(lines), _ => true);
  }

  /** One handler call of a load, after those for calls. */
  method HandleNext(reg: Registry, c: Call, ghost calls: seq<Call>, ghost all: seq<Call>) returns (accepted: bool)
    requires reg.Valid() && reg.built == C.HandleAll([], calls)
    requires C.AllFit(all) && calls + [c] <= all
    modifies reg, reg.nodes
    ensures reg.Valid() && fresh(reg.nodes - old(reg.nodes)) && reg.nodes >= old(reg.nodes)
    ensures reg.built == C.HandleAll([], calls + [c]) && accepted == Known(c)
  {
    hide C.SameIgnoringCase, C.AddTokens, C.Tokens, C.EnsureMaster, Built;
    assert all[|calls|] == c && forall i :: 0 <= i < |calls| ==> all[i] == calls[i];
    assert (calls + [c])[..|calls|] == calls;
    CallsBuild(calls);
    NeverExits(reg.built, calls, c);
    var verdict := reg.ConfigHandler(c);
    accepted := verdict.Accepted?;
  }

  /**
   serialLoadConfig with ini_parse_stream: the parser works in place on its buffers and calls the handler, which builds
   the lists, line by line. The result is the number of the first line that is malformed or not one of the settings.
   */
  method LoadFile(reg: Registry, lines: seq<Line>) returns (error: nat)
    requires reg.Valid() && reg.built == []
    modifies reg, reg.nodes
    ensures reg.Valid() && fresh(reg.nodes - old(reg.nodes))
    ensures reg.built == C.HandleAll([], FileCalls(lines)) && Built(reg.built, FileCalls(lines))
    ensures error == Parse(Texts(lines), Answers(FileCalls(lines))).error
  {
    hide Registry.Valid, Parse, ParseLineAt, Holds, NextContext, Texts, CStr, Len, FileCalls, C.HandleAll, C.AllFit,
         Built, Known;
    ghost var all := FileCalls(lines);
    ghost var answers := Answers(all);
    CallsFit(lines);
    TextsLength(lines);
    NothingRead(answers);
    var line, section, prevName := NewBuffers();
    error := 0;
    ghost var calls: seq<Call> := [];
    var lineno := 0;
    while lineno < |lines|
      invariant lineno <= |lines| && fresh(line) && fresh(section) && fresh(prevName)
      invariant reg.Valid() && fresh(reg.nodes - old(reg.nodes)) && reg.built == C.HandleAll([], calls)
      invariant var p := Parse(Texts(lines)[..lineno], answers);
                p.error == error && p.calls == calls && Holds(section[..], prevName[..], p.context)
    {
      ghost var p := Parse(Texts(lines)[..lineno], answers);
      CallInFile(lines, lineno, answers);
      var text := lines[lineno];
      lineno := lineno + 1;
      var o := ParseNext(line, section, prevName, text, lineno, p.context);
      if o.Continue? || o.Pair? {
        var accepted := HandleNext(reg, o.call, calls, all);
        calls := calls + [o.call];
        if !accepted && error == 0 {
          error := lineno;
        }
      } else if o.Malformed? && error == 0 {
        error := lineno;
      }
    }
    assert Texts(lines)[..lineno] == Texts(lines);
    AllCallsMade(lines, answers);
    CallsBuild(all);
  }

  lemma NothingRead(accept: nat -> bool)
    ensures var p := Parse([], accept); p.context == Context([], []) && p.calls == [] && p.error == 0
    ensures C.HandleAll([], []) == []
  {
  }

  lemma AllCallsMade(lines: seq<Line>, accept: nat -> bool)
    ensures Parse(Texts(lines), accept).calls == FileCalls(lines)
  {
    CallsIgnoreAnswers(Texts(lines), accept, _ => true);
  }

  /** A server over the lists of a registry. */
  method NewServer(reg: Registry, setsize: nat) returns (server: Server)
    requires reg.Valid()
    ensures fresh(server) && fresh(server.el) && fresh(server.el.events) && fresh(server.el.fired)
    ensures server.Valid() && server.nodes == reg.nodes && server.links == {}
    ensures server.world == Start(TopologyOf(reg.built), setsize)
  {
    hide ListsOf, TopologyOf, NodeMap;
    var el := new EventLoop<SerialLink>(setsize);
    RegistryLists(reg);
    server := new Server(el, reg.masterHead, reg.nodes, NodeMap(reg), TopologyOf(reg.built));
  }

  /**
   serialInit. Whatever the configuration file says, the lists are what its settings ask for, and the run starts with
   links, registrations and event table in step.
   */
  method SerialInit(lines: seq<Line>, setsize: nat, kernel: Id -> Connection)
    returns (server: Server, ghost ms: C.Masters)
    requires FreshFds(Start([], setsize), kernel)
    ensures fresh(server) && fresh(server.nodes) && fresh(server.links)
    ensures fresh(server.el) && fresh(server.el.events) && fresh(server.el.fired)
    ensures server.Valid() && server.History() && server.turns == []
    ensures ms == C.HandleAll([], FileCalls(lines)) && Built(ms, FileCalls(lines))
    ensures server.world == Proxy.Reconnect(Start(TopologyOf(ms), setsize), |ms|, kernel)
  {
    hide ListsOf, TopologyOf, NodeMap, FileCalls, Built, C.HandleAll, WellFormed, LegalRun, Run, Proxy.Reconnect;
    var reg := new Registry();
    var _ := LoadFile(reg, lines);
    ms := reg.built;
    server := NewServer(reg, setsize);
    server.Init(kernel);
  }
}
