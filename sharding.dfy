/** `SetNodeShardingFromNeighbors`: places a node on the device of the
    neighbour whose single-core sharding has the smallest core. */
module Sharding {
  import opened Errors
  import opened GraphDefs
  import opened Graphs

  datatype ShardingType = Replicated | Maximal | Tuple | Other | Manual

  /** A parsed sharding annotation: its type and its first assigned device. */
  datatype OpSharding = OpSharding(kind: ShardingType, core: nat)

  /** How sharding annotations are read from a node's device and attributes:
      an error, no annotation, or an annotation. */
  type ShardingParser = Node -> Result<Option<OpSharding>>

  /** The node at the other end of `e`. */
  function Neighbour(e: Edge, outEdges: bool): nat
  {
    if outEdges then e.dst else e.src
  }

  /** The data edges leaving `n` (when `outEdges`) or entering it. */
  function NeighbourEdges(es: set<Edge>, n: nat, outEdges: bool): set<Edge>
  {
    set e | e in es && !IsControlEdge(e) && (if outEdges then e.src == n else e.dst == n)
  }

  /** Reading the neighbour's annotation fails, or it is not single-core. */
  predicate Bad(nodes: map<nat, Node>, parse: ShardingParser, e: Edge, outEdges: bool)
  {
    var m := Neighbour(e, outEdges);
    m in nodes && (parse(nodes[m]).Failure? ||
                   (parse(nodes[m]).value.Some? && parse(nodes[m]).value.value.kind != Maximal))
  }

  /** The neighbour carries a single-core annotation. */
  predicate Annotated(nodes: map<nat, Node>, parse: ShardingParser, e: Edge, outEdges: bool)
  {
    var m := Neighbour(e, outEdges);
    m in nodes && parse(nodes[m]).Success? && parse(nodes[m]).value.Some?
      && parse(nodes[m]).value.value.kind == Maximal
  }

  function CoreOf(nodes: map<nat, Node>, parse: ShardingParser, e: Edge, outEdges: bool): nat
    requires Annotated(nodes, parse, e, outEdges)
  {
    parse(nodes[Neighbour(e, outEdges)]).value.value.core
  }

  /** `e` leads to an annotated neighbour whose core no other annotated
      neighbour in `es` undercuts. */
  predicate MinimalAnnotated(nodes: map<nat, Node>, parse: ShardingParser, es: set<Edge>, e: Edge, outEdges: bool)
  {
    && e in es && Annotated(nodes, parse, e, outEdges)
    && forall x :: x in es && Annotated(nodes, parse, x, outEdges) ==>
         CoreOf(nodes, parse, e, outEdges) <= CoreOf(nodes, parse, x, outEdges)
  }

  /** `n` with the assigned and requested devices of `w`. */
  function TakeDevices(n: Node, w: Node): Node
  {
    Node(n.def.(device := w.def.device), w.assignedDevice)
  }

  /** The neighbour scan: visits the edges of `nbrs` in no particular
      order, keeping the one whose neighbour has the smallest core seen so
      far (a later one wins only with a strictly smaller core). An
      unreadable or non-single-core annotation stops the scan with an error. */
  method FindMatch(nodes: map<nat, Node>, parse: ShardingParser, nbrs: set<Edge>, outEdges: bool)
    returns (st: Status, winner: Option<Edge>)
    requires forall e :: e in nbrs ==> Neighbour(e, outEdges) in nodes
    ensures st.Err? <==> exists e :: e in nbrs && Bad(nodes, parse, e, outEdges)
    ensures st.Err? ==>
      || st.reason == NotMaximalSharding
      || exists e :: e in nbrs && parse(nodes[Neighbour(e, outEdges)]) == Failure(st.reason)
    ensures st.Ok? ==> (winner.None? <==> forall e :: e in nbrs ==> !Annotated(nodes, parse, e, outEdges))
    ensures st.Ok? && winner.Some? ==> MinimalAnnotated(nodes, parse, nbrs, winner.value, outEdges)
  {
    var left := nbrs;
    var core: int := -1;
    winner := None;
    ghost var done: set<Edge> := {};
    while left != {}
      invariant done <= nbrs && left == nbrs - done
      invariant forall e :: e in done ==> !Bad(nodes, parse, e, outEdges)
      invariant winner.None? <==> forall e :: e in done ==> !Annotated(nodes, parse, e, outEdges)
      invariant winner.None? ==> core == -1
      invariant winner.Some? ==>
        && MinimalAnnotated(nodes, parse, done, winner.value, outEdges)
        && core == CoreOf(nodes, parse, winner.value, outEdges)
      decreases |left|
    {
      var e :| e in left;
      var s := parse(nodes[Neighbour(e, outEdges)]);
      if s.Failure? {
        return Err(s.reason), winner;
      }
      if s.value.Some? {
        if s.value.value.kind != Maximal {
          return Err(NotMaximalSharding), winner;
        }
        var c := s.value.value.core;
        if core == -1 || core > c {
          MinimalAfterNew(nodes, parse, done, e, outEdges);
          core, winner := c, Some(e);
        } else {
          MinimalAfterOld(nodes, parse, done, winner.value, e, outEdges);
        }
      }
      MoveOne(nbrs, done, left, e);
      left, done := left - {e}, done + {e};
    }
    st := Ok;
  }

  /** Copies to `n` the assigned and requested devices of the data
      neighbour (over out-edges or in-edges) with the smallest single-core
      annotation; control edges are skipped. Without an annotated neighbour,
      or on an error, the node is unchanged. */
  method SetNodeShardingFromNeighbors(g: Graph, n: nat, outEdges: bool, parse: ShardingParser)
    returns (st: Status)
    requires g.Valid() && n in g.nodes
    modifies g
    ensures g.Valid() && g.edges == old(g.edges) && g.nextId == old(g.nextId)
    ensures st.Err? <==>
      exists e :: e in NeighbourEdges(old(g.edges), n, outEdges) && Bad(old(g.nodes), parse, e, outEdges)
    ensures st.Err? ==> g.nodes == old(g.nodes)
    ensures st.Ok? && (forall e :: e in NeighbourEdges(old(g.edges), n, outEdges) ==>
                        !Annotated(old(g.nodes), parse, e, outEdges))
            ==> g.nodes == old(g.nodes)
    ensures st.Ok? && (exists e :: e in NeighbourEdges(old(g.edges), n, outEdges)
                        && Annotated(old(g.nodes), parse, e, outEdges))
            ==> exists e :: MinimalAnnotated(old(g.nodes), parse, NeighbourEdges(old(g.edges), n, outEdges), e, outEdges)
                  && g.nodes == old(g.nodes)[n := TakeDevices(old(g.nodes)[n], old(g.nodes)[Neighbour(e, outEdges)])]
  {
    var nbrs := NeighbourEdges(g.edges, n, outEdges);
    var winner;
    st, winner := FindMatch(g.nodes, parse, nbrs, outEdges);
    if st.Ok? && winner.Some? {
      var w := g.nodes[Neighbour(winner.value, outEdges)];
      g.SetDevices(n, w.assignedDevice, w.def.device);
    }
  }

  /** A new annotated neighbour with a core no larger than every earlier
      annotated one becomes the minimum. */
  lemma MinimalAfterNew(nodes: map<nat, Node>, parse: ShardingParser, done: set<Edge>, e: Edge, outEdges: bool)
    requires Annotated(nodes, parse, e, outEdges)
    requires forall x :: x in done && Annotated(nodes, parse, x, outEdges) ==>
               CoreOf(nodes, parse, e, outEdges) <= CoreOf(nodes, parse, x, outEdges)
    ensures MinimalAnnotated(nodes, parse, done + {e}, e, outEdges)
  {
  }

  /** The minimum so far stays the minimum when the new neighbour's core is
      not strictly smaller. */
  lemma MinimalAfterOld(nodes: map<nat, Node>, parse: ShardingParser, done: set<Edge>, w: Edge, e: Edge, outEdges: bool)
    requires MinimalAnnotated(nodes, parse, done, w, outEdges)
    requires Annotated(nodes, parse, e, outEdges) ==> CoreOf(nodes, parse, w, outEdges) <= CoreOf(nodes, parse, e, outEdges)
    ensures MinimalAnnotated(nodes, parse, done + {e}, w, outEdges)
  {
  }
}
