/** The in-memory graph the rewriting helpers edit: nodes under numeric ids,
    and edges between (node, output) and (node, input) slots. */
module Graphs {
  import opened Errors
  import opened GraphDefs
  import opened TensorIds

  /** A node of the graph: its definition (whose `device` is the requested
      device) and the device it has been assigned to. */
  datatype Node = Node(def: NodeDef, assignedDevice: string)

  /** An edge from output `srcOutput` of `src` to input `dstInput` of `dst`;
      a control edge uses the control slot at both ends. */
  datatype Edge = Edge(src: nat, srcOutput: int, dst: nat, dstInput: int)

  predicate IsControlEdge(e: Edge)
  {
    e.srcOutput == ControlSlot
  }

  /** `es` with every destination replaced by `m`. */
  function ToDst(es: set<Edge>, m: nat): set<Edge>
  {
    set e | e in es :: e.(dst := m)
  }

  /** `es` with every source replaced by `m`. */
  function FromSrc(es: set<Edge>, m: nat): set<Edge>
  {
    set e | e in es :: e.(src := m)
  }

  /** The edges into `n` from another node. */
  function IntoFrom(es: set<Edge>, n: nat): set<Edge>
  {
    set e | e in es && e.dst == n && e.src != n
  }

  /** The edges out of `n` to another node. */
  function OutTo(es: set<Edge>, n: nat): set<Edge>
  {
    set e | e in es && e.src == n && e.dst != n
  }

  /** The edges that touch neither end of `n`. */
  function Away(es: set<Edge>, n: nat): set<Edge>
  {
    set e | e in es && e.src != n && e.dst != n
  }

  class Graph {
    var nodes: map<nat, Node>
    var edges: set<Edge>
    /** The id the next added node receives. */
    var nextId: nat
    /** The ops (and library functions) the graph can build nodes for. */
    const registry: set<string>

    ghost predicate Valid()
      reads this
    {
      && (forall id :: id in nodes ==> id < nextId)
      && (forall e :: e in edges ==> e.src in nodes && e.dst in nodes)
    }

    constructor (registry: set<string>)
      ensures Valid()
      ensures nodes == map[] && edges == {} && nextId == 0 && this.registry == registry
    {
      nodes, edges, nextId := map[], {}, 0;
      this.registry := registry;
    }

    function InEdges(n: nat): set<Edge>
      reads this
    {
      set e | e in edges && e.dst == n
    }

    function OutEdges(n: nat): set<Edge>
      reads this
    {
      set e | e in edges && e.src == n
    }

    /** Adds a node without edges; fails when its op is not registered. */
    method AddNode(def: NodeDef) returns (r: Result<nat>)
      requires Valid()
      modifies this
      ensures Valid()
      ensures def.op !in registry ==> r == Failure(OpNotRegistered(def.op)) && unchanged(this)
      ensures def.op in registry ==>
        && r == Success(old(nextId))
        && nodes == old(nodes)[old(nextId) := Node(def, "")]
        && edges == old(edges) && nextId == old(nextId) + 1
    {
      if def.op !in registry {
        return Failure(OpNotRegistered(def.op));
      }
      r := Success(nextId);
      nodes := nodes[nextId := Node(def, "")];
      nextId := nextId + 1;
    }

    method AddEdge(src: nat, srcOutput: int, dst: nat, dstInput: int)
      requires Valid() && src in nodes && dst in nodes
      modifies this
      ensures Valid()
      ensures edges == old(edges) + {Edge(src, srcOutput, dst, dstInput)}
      ensures nodes == old(nodes) && nextId == old(nextId)
    {
      edges := edges + {Edge(src, srcOutput, dst, dstInput)};
    }

    method RemoveEdge(e: Edge)
      requires Valid() && e in edges
      modifies this
      ensures Valid()
      ensures edges == old(edges) - {e}
      ensures nodes == old(nodes) && nextId == old(nextId)
    {
      edges := edges - {e};
    }

    /** Removes a node together with every edge that touches it. */
    method RemoveNode(n: nat)
      requires Valid() && n in nodes
      modifies this
      ensures Valid()
      ensures nodes == old(nodes) - {n}
      ensures edges == Away(old(edges), n)
      ensures nextId == old(nextId)
    {
      nodes := nodes - {n};
      edges := Away(edges, n);
    }

    /** Replaces the stored value of node `n`. */
    method SetNode(n: nat, node: Node)
      requires Valid() && n in nodes
      modifies this
      ensures Valid()
      ensures nodes == old(nodes)[n := node]
      ensures edges == old(edges) && nextId == old(nextId)
    {
      nodes := nodes[n := node];
    }

    /** Sets a node's assigned and requested devices. */
    method SetDevices(n: nat, assignedDev: string, requested: string)
      requires Valid() && n in nodes
      modifies this
      ensures Valid()
      ensures nodes == old(nodes)[n := Node(old(nodes)[n].def.(device := requested), assignedDev)]
      ensures edges == old(edges) && nextId == old(nextId)
    {
      nodes := nodes[n := Node(nodes[n].def.(device := requested), assignedDev)];
    }
  }

  /** The edges after node `n` is replaced by the fresh node `m`: edges into
      `n` now enter `m`, edges out of `n` now leave `m`, with the same output
      and input slots; an edge from `n` to itself is dropped. */
  function Rewired(es: set<Edge>, n: nat, m: nat): set<Edge>
  {
    Away(es, n)
      + ToDst(IntoFrom(es, n), m)
      + FromSrc(OutTo(es, n), m)
  }

  /** Removes each edge of `todo`, in no particular order. */
  method RemoveEdges(g: Graph, todo: set<Edge>)
    requires g.Valid() && todo <= g.edges
    modifies g
    ensures g.Valid()
    ensures g.edges == old(g.edges) - todo
    ensures g.nodes == old(g.nodes) && g.nextId == old(g.nextId)
  {
    var left := todo;
    while left != {}
      invariant g.Valid() && left <= todo && left <= g.edges
      invariant g.edges == old(g.edges) - (todo - left)
      invariant g.nodes == old(g.nodes) && g.nextId == old(g.nextId)
      decreases |left|
    {
      var e :| e in left;
      g.RemoveEdge(e);
      left := left - {e};
    }
  }

  /** Adds a copy of each edge of `es` that enters `m` instead. */
  method AddEdgesInto(g: Graph, es: set<Edge>, m: nat)
    requires g.Valid() && m in g.nodes
    requires forall e :: e in es ==> e.src in g.nodes
    modifies g
    ensures g.Valid()
    ensures g.edges == old(g.edges) + ToDst(es, m)
    ensures g.nodes == old(g.nodes) && g.nextId == old(g.nextId)
  {
    var left := es;
    ToDstEmpty(m);
    while left != {}
      invariant g.Valid() && left <= es
      invariant g.edges == old(g.edges) + ToDst(es - left, m)
      invariant g.nodes == old(g.nodes) && g.nextId == old(g.nextId)
      decreases |left|
    {
      var e :| e in left;
      g.AddEdge(e.src, e.srcOutput, m, e.dstInput);
      ToDstAdd(es - left, e, m);
      TakeOne(es, left, e);
      left := left - {e};
    }
  }

  /** Adds a copy of each edge of `es` that leaves `m` instead. */
  method AddEdgesFrom(g: Graph, es: set<Edge>, m: nat)
    requires g.Valid() && m in g.nodes
    requires forall e :: e in es ==> e.dst in g.nodes
    modifies g
    ensures g.Valid()
    ensures g.edges == old(g.edges) + FromSrc(es, m)
    ensures g.nodes == old(g.nodes) && g.nextId == old(g.nextId)
  {
    var left := es;
    FromSrcEmpty(m);
    while left != {}
      invariant g.Valid() && left <= es
      invariant g.edges == old(g.edges) + FromSrc(es - left, m)
      invariant g.nodes == old(g.nodes) && g.nextId == old(g.nextId)
      decreases |left|
    {
      var e :| e in left;
      g.AddEdge(m, e.srcOutput, e.dst, e.dstInput);
      FromSrcAdd(es - left, e, m);
      TakeOne(es, left, e);
      left := left - {e};
    }
  }

  lemma ToDstEmpty(m: nat)
    ensures ToDst({}, m) == {}
  {
  }

  lemma FromSrcEmpty(m: nat)
    ensures FromSrc({}, m) == {}
  {
  }

  /** Moving `e` from the elements left to the ones done. */
  lemma MoveOne<T>(all: set<T>, done: set<T>, left: set<T>, e: T)
    requires done <= all && left == all - done && e in left
    ensures done + {e} <= all && left - {e} == all - (done + {e})
    ensures |left - {e}| < |left|
  {
  }

  /** Taking `e` out of the elements still to do. */
  lemma TakeOne<T>(all: set<T>, left: set<T>, e: T)
    requires left <= all && e in left
    ensures all - (left - {e}) == (all - left) + {e}
    ensures |left - {e}| < |left|
  {
  }

  lemma ToDstAdd(es: set<Edge>, e: Edge, m: nat)
    ensures ToDst(es + {e}, m) == ToDst(es, m) + {Edge(e.src, e.srcOutput, m, e.dstInput)}
  {
  }

  lemma FromSrcAdd(es: set<Edge>, e: Edge, m: nat)
    ensures FromSrc(es + {e}, m) == FromSrc(es, m) + {Edge(m, e.srcOutput, e.dst, e.dstInput)}
  {
  }

  /** `ReplaceNode`: adds a node for `def`, moves the old node's out-edges
      and then its in-edges onto it, and removes the old node. The graph is
      untouched when the new node cannot be added. */
  method ReplaceNode(g: Graph, n: nat, def: NodeDef) returns (r: Result<nat>)
    requires g.Valid() && n in g.nodes
    modifies g
    ensures g.Valid()
    ensures def.op !in g.registry ==> r == Failure(OpNotRegistered(def.op)) && unchanged(g)
    ensures def.op in g.registry ==>
      && r == Success(old(g.nextId))
      && g.nodes == (old(g.nodes) - {n})[old(g.nextId) := Node(def, "")]
      && g.edges == Rewired(old(g.edges), n, old(g.nextId))
    ensures OneProducer(old(g.edges)) ==> OneProducer(g.edges)
  {
    r := g.AddNode(def);
    if r.Failure? {
      return;
    }
    var m := r.value;
    ghost var e0 := g.edges;
    // Out-edges are recorded and removed first, so that no consumer is
    // briefly fed by two producers.
    var outs := g.OutEdges(n);
    RemoveEdges(g, outs);
    var ins := g.InEdges(n);
    AddEdgesInto(g, ins, m);
    AddEdgesFrom(g, outs, m);
    g.RemoveNode(n);
    ReplaceEdges(e0, n, m, outs, ins);
    if OneProducer(e0) {
      RewiredKeepsOneProducer(e0, n, m);
    }
  }

  /** The edge set `ReplaceNode` leaves is the rewiring of the old one. */
  lemma ReplaceEdges(e0: set<Edge>, n: nat, m: nat, outs: set<Edge>, ins: set<Edge>)
    requires n != m
    requires outs == set e | e in e0 && e.src == n
    requires ins == set e | e in e0 - outs && e.dst == n
    ensures Away((e0 - outs) + ToDst(ins, m) + FromSrc(outs, m), n) == Rewired(e0, n, m)
  {
    var lhs := Away((e0 - outs) + ToDst(ins, m) + FromSrc(outs, m), n);
    forall e | e in Rewired(e0, n, m) ensures e in lhs {
      if e !in Away(e0, n) {
        if e in ToDst(IntoFrom(e0, n), m) {
          var d :| e.(dst := d) in IntoFrom(e0, n);
          assert e.(dst := d) in ins;
        } else {
          var s :| e.(src := s) in OutTo(e0, n);
          assert e.(src := s) in outs;
        }
      }
    }
  }

  /** After the replacement, no edge touches the old node. */
  lemma RewiredForgetsOld(es: set<Edge>, n: nat, m: nat, e: Edge)
    requires n != m && e in Rewired(es, n, m)
    ensures e.src != n && e.dst != n
  {
  }

  /** Every in-edge of the old node (other than a self-loop) reappears on
      the new node with the same source and slots, and every edge into the
      new node comes from one. */
  lemma RewiredInEdges(es: set<Edge>, n: nat, m: nat, e: Edge)
    requires n != m
    requires forall x :: x in es ==> x.src != m && x.dst != m
    requires e.dst == n && e.src != n
    ensures e in es <==> e.(dst := m) in Rewired(es, n, m)
  {
    var ins, outs := IntoFrom(es, n), OutTo(es, n);
    if e.(dst := m) in Rewired(es, n, m) {
      assert e.(dst := m) !in FromSrc(outs, m);
      var d :| e.(dst := m).(dst := d) in ins;
      assert e.(dst := m).(dst := d) == e.(dst := d);
    }
  }

  /** Every out-edge of the old node (other than a self-loop) reappears on
      the new node with the same destination and slots, and every edge out
      of the new node comes from one. */
  lemma RewiredOutEdges(es: set<Edge>, n: nat, m: nat, e: Edge)
    requires n != m
    requires forall x :: x in es ==> x.src != m && x.dst != m
    requires e.src == n && e.dst != n
    ensures e in es <==> e.(src := m) in Rewired(es, n, m)
  {
    var ins, outs := IntoFrom(es, n), OutTo(es, n);
    if e.(src := m) in Rewired(es, n, m) {
      assert e.(src := m) !in ToDst(ins, m);
      var s :| e.(src := m).(src := s) in outs;
    }
  }

  /** Edges away from both nodes are kept, and no others appear. */
  lemma RewiredKeepsOthers(es: set<Edge>, n: nat, m: nat, e: Edge)
    requires e.src != n && e.dst != n && e.src != m && e.dst != m
    ensures e in es <==> e in Rewired(es, n, m)
  {
  }

  /** Each data input has at most one producer: two data edges into the
      same input slot of the same node are the same edge. */
  ghost predicate OneProducer(es: set<Edge>)
  {
    forall a, b ::
      a in es && b in es && !IsControlEdge(a) && !IsControlEdge(b) && a.dst == b.dst && a.dstInput == b.dstInput
      ==> a == b
  }

  /** Where the rewiring sends an edge that is not a self-loop of `n`: each
      end at `n` moves to `m`, slots kept. */
  function Moved(e: Edge, n: nat, m: nat): Edge
  {
    Edge(if e.src == n then m else e.src, e.srcOutput, if e.dst == n then m else e.dst, e.dstInput)
  }

  /** Every rewired edge is the move of an edge of the old set that is not
      a self-loop of `n`. */
  lemma RewiredOrigin(es: set<Edge>, n: nat, m: nat, e: Edge) returns (o: Edge)
    requires e in Rewired(es, n, m)
    ensures o in es && !(o.src == n && o.dst == n) && e == Moved(o, n, m)
  {
    if e in Away(es, n) {
      o := e;
    } else if e in ToDst(IntoFrom(es, n), m) {
      var d :| e.(dst := d) in IntoFrom(es, n);
      o := e.(dst := d);
    } else {
      var s :| e.(src := s) in OutTo(es, n);
      o := e.(src := s);
    }
  }

  /** The order `ReplaceNode` keeps, removing the old out-edges before
      adding the new ones, never gives a data input two producers: if no
      input had two producers before, none has after. */
  lemma RewiredKeepsOneProducer(es: set<Edge>, n: nat, m: nat)
    requires n != m
    requires forall x :: x in es ==> x.src != m && x.dst != m
    requires OneProducer(es)
    ensures OneProducer(Rewired(es, n, m))
  {
    var r := Rewired(es, n, m);
    forall a, b | a in r && b in r && !IsControlEdge(a) && !IsControlEdge(b)
      && a.dst == b.dst && a.dstInput == b.dstInput
      ensures a == b
    {
      var oa := RewiredOrigin(es, n, m, a);
      var ob := RewiredOrigin(es, n, m, b);
      assert oa.dst == ob.dst;
      assert oa == ob;
    }
  }

  /** The node `BuildIdentityNode` adds: an Identity of type `dtype`, reading
      the named input when there is one, on the requested device if given. */
  function IdentityDef(name: string, dtype: DataType, input: Option<string>, device: Option<string>): NodeDef
  {
    NodeDef(name, "Identity",
            if input.Some? then [input.value] else [],
            map["T" := Type(dtype)],
            if device.Some? then device.value else "")
  }

  method BuildIdentityNode(g: Graph, name: string, dtype: DataType, input: Option<nat>, device: Option<string>)
    returns (r: Result<nat>)
    requires g.Valid() && (input.Some? ==> input.value in g.nodes)
    modifies g
    ensures g.Valid()
    ensures "Identity" !in g.registry ==> r.Failure? && unchanged(g)
    ensures "Identity" in g.registry ==>
      var inName := if input.Some? then Some(old(g.nodes)[input.value].def.name) else None;
      && r == Success(old(g.nextId))
      && g.nodes == old(g.nodes)[r.value := Node(IdentityDef(name, dtype, inName, device), "")]
      && g.edges == old(g.edges)
  {
    var inName := if input.Some? then Some(g.nodes[input.value].def.name) else None;
    r := g.AddNode(IdentityDef(name, dtype, inName, device));
  }

  /** The built node is an Identity with one type attribute `T`; it names
      its input exactly when an input node is given, and it asks for the
      requested device, or for none when no device is requested. */
  lemma IdentityDefShape(name: string, dtype: DataType, input: Option<string>, device: Option<string>)
    ensures IdentityDef(name, dtype, input, device).op == "Identity"
    ensures IdentityDef(name, dtype, input, device).attrs.Keys == {"T"}
    ensures |IdentityDef(name, dtype, input, device).inputs| == (if input.Some? then 1 else 0)
    ensures device.None? ==> IdentityDef(name, dtype, input, device).device == ""
    ensures device.Some? ==> IdentityDef(name, dtype, input, device).device == device.value
  {
  }
}
