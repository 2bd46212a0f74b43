/** `PruneGraphDefInto`: keeps the nodes the fetches need, walking inputs
    breadth first from the fetched nodes and stopping at fed tensors. */
module Pruning {
  import opened Errors
  import opened GraphDefs
  import opened TensorIds
  import opened NodeIndex

  /** The (node, output) pairs being fed: traversal does not cross them. */
  function FedTensors(feeds: seq<Feed>): set<(string, int)>
  {
    set i | 0 <= i < |feeds| :: (feeds[i].id.nodeName, feeds[i].id.outputIndex)
  }

  function FetchNames(fetches: seq<Fetch>): set<string>
  {
    set i | 0 <= i < |fetches| :: fetches[i].id.nodeName
  }

  /** The producers a visit pushes, in input order: the node of every input
      (control inputs included) whose exact (node, output) pair is not fed. */
  function Followed(inputs: seq<string>, fed: set<(string, int)>): (r: seq<string>)
    ensures forall y :: y in r <==>
      exists j :: 0 <= j < |inputs| && ParseTensorName(inputs[j]).nodeName == y
        && (y, ParseTensorName(inputs[j]).outputIndex) !in fed
  {
    if inputs == [] then []
    else
      var init := inputs[..|inputs| - 1];
      var id := ParseTensorName(inputs[|inputs| - 1]);
      assert forall j :: 0 <= j < |init| ==> init[j] == inputs[j];
      Followed(init, fed) + (if (id.nodeName, id.outputIndex) in fed then [] else [id.nodeName])
  }

  /** One step of the traversal: visiting existing node `a` pushes `b`. */
  ghost predicate Step(byName: map<string, NodeDef>, fed: set<(string, int)>, a: string, b: string)
  {
    a in byName && b in Followed(byName[a].inputs, fed)
  }

  ghost predicate IsPath(byName: map<string, NodeDef>, fed: set<(string, int)>, starts: set<string>, p: seq<string>)
  {
    && |p| > 0
    && p[0] in starts
    && forall k :: 0 <= k < |p| - 1 ==> Step(byName, fed, p[k], p[k + 1])
  }

  /** `x` is needed: some walk from a fetched node, through existing nodes and
      unfed inputs, ends at `x`. */
  ghost predicate Reachable(byName: map<string, NodeDef>, fed: set<(string, int)>, starts: set<string>, x: string)
  {
    exists p :: IsPath(byName, fed, starts, p) && p[|p| - 1] == x
  }

  ghost function ReachableNames(byName: map<string, NodeDef>, fed: set<(string, int)>, starts: set<string>): set<string>
  {
    set x | x in byName && Reachable(byName, fed, starts, x)
  }

  /** The stable filter of the copy loop: the nodes whose names are kept, in
      their original order. */
  function KeepNamed(nodes: seq<NodeDef>, keep: set<string>): (r: seq<NodeDef>)
    ensures forall n :: n in r <==> n in nodes && n.name in keep
  {
    if nodes == [] then []
    else
      var init, last := nodes[..|nodes| - 1], nodes[|nodes| - 1];
      assert nodes == init + [last];
      KeepNamed(init, keep) + (if last.name in keep then [last] else [])
  }

  /** `x` is needed by the fetches of `config` but no node of `graph` has
      that name. */
  ghost predicate NeededButMissing(config: Config, graph: seq<NodeDef>, x: string)
  {
    var byName := NodesByName(graph);
    Reachable(byName, FedTensors(config.feeds), FetchNames(config.fetches), x) && x !in byName
  }

  /** The nodes `PruneGraphDefInto` keeps: the needed ones, in input order. */
  ghost function Pruned(config: Config, graph: seq<NodeDef>): seq<NodeDef>
  {
    var byName := NodesByName(graph);
    KeepNamed(graph, ReachableNames(byName, FedTensors(config.feeds), FetchNames(config.fetches)))
  }

  lemma ReachableStep(byName: map<string, NodeDef>, fed: set<(string, int)>, starts: set<string>, x: string, y: string)
    requires Reachable(byName, fed, starts, x) && Step(byName, fed, x, y)
    ensures Reachable(byName, fed, starts, y)
  {
    var p :| IsPath(byName, fed, starts, p) && p[|p| - 1] == x;
    var q := p + [y];
    forall k | 0 <= k < |q| - 1 ensures Step(byName, fed, q[k], q[k + 1]) {
      if k < |p| - 1 {
        assert q[k] == p[k] && q[k + 1] == p[k + 1];
        assert Step(byName, fed, p[k], p[k + 1]);
      }
    }
    assert IsPath(byName, fed, starts, q);
  }

  lemma StartReachable(byName: map<string, NodeDef>, fed: set<(string, int)>, starts: set<string>, x: string)
    requires x in starts
    ensures Reachable(byName, fed, starts, x)
  {
    assert IsPath(byName, fed, starts, [x]);
  }

  /** A set that holds the fetched nodes and everything visiting its
      existing members pushes holds every reachable node. */
  lemma ClosedContainsReachable(byName: map<string, NodeDef>, fed: set<(string, int)>, starts: set<string>,
                                s: set<string>, x: string)
    requires starts <= s
    requires forall a, b :: a in s && Step(byName, fed, a, b) ==> b in s
    requires Reachable(byName, fed, starts, x)
    ensures x in s
  {
    var p :| IsPath(byName, fed, starts, p) && p[|p| - 1] == x;
    PathInClosed(byName, fed, starts, s, p, |p| - 1);
  }

  lemma {:induction false} PathInClosed(byName: map<string, NodeDef>, fed: set<(string, int)>, starts: set<string>,
                                        s: set<string>, p: seq<string>, k: nat)
    requires starts <= s
    requires forall a, b :: a in s && Step(byName, fed, a, b) ==> b in s
    requires IsPath(byName, fed, starts, p) && k < |p|
    ensures p[k] in s
  {
    if k > 0 {
      PathInClosed(byName, fed, starts, s, p, k - 1);
      assert Step(byName, fed, p[k - 1], p[k]);
    }
  }

  /** Appends to `queue` the producers a visit of `node` pushes. */
  method PushInputs(queue: seq<string>, node: NodeDef, fed: set<(string, int)>) returns (queue': seq<string>)
    ensures queue' == queue + Followed(node.inputs, fed)
  {
    queue' := queue;
    for j := 0 to |node.inputs|
      invariant queue' == queue + Followed(node.inputs[..j], fed)
    {
      assert node.inputs[..j + 1][..j] == node.inputs[..j];
      var id := ParseTensorName(node.inputs[j]);
      if (id.nodeName, id.outputIndex) !in fed {
        queue' := queue' + [id.nodeName];
      }
    }
    assert node.inputs[..|node.inputs|] == node.inputs;
  }

  /** The facts the walk keeps: everything marked or queued is needed, every
      fetched node is marked or queued, and visiting a marked node pushed
      nothing that is neither marked nor queued. */
  ghost predicate WalkInvariant(byName: map<string, NodeDef>, fed: set<(string, int)>, starts: set<string>,
                                reached: set<string>, queue: seq<string>)
  {
    && reached <= byName.Keys
    && (forall x :: x in reached ==> Reachable(byName, fed, starts, x))
    && (forall x :: x in queue ==> Reachable(byName, fed, starts, x))
    && (forall x :: x in starts ==> x in reached || x in queue)
    && (forall a, b :: a in reached && Step(byName, fed, a, b) ==> b in reached || b in queue)
  }

  /** Marks an existing, unmarked node at the front of the queue and pushes
      its followed inputs. */
  method Visit(byName: map<string, NodeDef>, fed: set<(string, int)>, ghost starts: set<string>,
               reached: set<string>, queue: seq<string>)
    returns (reached': set<string>, queue': seq<string>)
    requires queue != [] && queue[0] in byName && queue[0] !in reached
    requires WalkInvariant(byName, fed, starts, reached, queue)
    ensures WalkInvariant(byName, fed, starts, reached', queue')
    ensures reached' == reached + {queue[0]}
  {
    var name := queue[0];
    reached' := reached + {name};
    queue' := PushInputs(queue[1..], byName[name], fed);
    forall y | y in queue' ensures Reachable(byName, fed, starts, y) {
      if y !in queue[1..] {
        ReachableStep(byName, fed, starts, name, y);
      }
    }
    forall x | x in starts ensures x in reached' || x in queue' {
      if x !in reached' { assert x in queue[1..]; }
    }
    forall a, b | a in reached' && Step(byName, fed, a, b) ensures b in reached' || b in queue' {
      if a != name && b !in reached' { assert b in queue[1..]; }
    }
  }

  /** The fetched node names, in fetch order. */
  method FetchQueue(fetches: seq<Fetch>) returns (queue: seq<string>)
    ensures |queue| == |fetches| && forall i :: 0 <= i < |fetches| ==> queue[i] == fetches[i].id.nodeName
    ensures forall x :: x in queue <==> x in FetchNames(fetches)
  {
    queue := [];
    for i := 0 to |fetches|
      invariant |queue| == i && forall k :: 0 <= k < i ==> queue[k] == fetches[k].id.nodeName
      invariant forall x :: x in queue <==> exists k :: 0 <= k < i && fetches[k].id.nodeName == x
    {
      queue := queue + [fetches[i].id.nodeName];
    }
  }

  lemma WalkStart(byName: map<string, NodeDef>, fed: set<(string, int)>, starts: set<string>, queue: seq<string>)
    requires forall x :: x in queue <==> x in starts
    ensures WalkInvariant(byName, fed, starts, {}, queue)
  {
    forall x | x in queue ensures Reachable(byName, fed, starts, x) {
      StartReachable(byName, fed, starts, x);
    }
  }

  /** A queued name is needed. */
  lemma QueuedReachable(byName: map<string, NodeDef>, fed: set<(string, int)>, starts: set<string>,
                        reached: set<string>, queue: seq<string>)
    requires queue != [] && WalkInvariant(byName, fed, starts, reached, queue)
    ensures Reachable(byName, fed, starts, queue[0])
  {
  }

  /** Popping a name that is already marked keeps the invariant. */
  lemma PopMarked(byName: map<string, NodeDef>, fed: set<(string, int)>, starts: set<string>,
                  reached: set<string>, queue: seq<string>)
    requires queue != [] && queue[0] in reached
    requires WalkInvariant(byName, fed, starts, reached, queue)
    ensures WalkInvariant(byName, fed, starts, reached, queue[1..])
  {
    forall x | x in queue ensures x in reached || x in queue[1..] {
      if x != queue[0] { assert x in queue[1..]; }
    }
  }

  /** Takes the front of the queue, an existing node, and visits it unless
      it is already marked. */
  method Pop(byName: map<string, NodeDef>, fed: set<(string, int)>, ghost starts: set<string>,
             reached: set<string>, queue: seq<string>)
    returns (reached': set<string>, queue': seq<string>)
    requires queue != [] && queue[0] in byName
    requires WalkInvariant(byName, fed, starts, reached, queue)
    ensures WalkInvariant(byName, fed, starts, reached', queue')
    ensures || |byName.Keys - reached'| < |byName.Keys - reached|
            || (reached' == reached && |queue'| < |queue|)
  {
    if queue[0] in reached {
      PopMarked(byName, fed, starts, reached, queue);
      reached', queue' := reached, queue[1..];
    } else {
      assert byName.Keys - (reached + {queue[0]}) < byName.Keys - reached;
      reached', queue' := Visit(byName, fed, starts, reached, queue);
    }
  }

  /** The breadth-first walk: returns the names marked reachable, or the
      first needed name that is missing from the graph. */
  method Traverse(byName: map<string, NodeDef>, fed: set<(string, int)>, fetches: seq<Fetch>)
    returns (st: Status, reached: set<string>)
    ensures st.Ok? ==> reached == ReachableNames(byName, fed, FetchNames(fetches))
    ensures st.Ok? ==> forall x :: Reachable(byName, fed, FetchNames(fetches), x) ==> x in byName
    ensures st.Err? ==> st.reason.PruneNodeNotFound?
    ensures st.Err? ==> Reachable(byName, fed, FetchNames(fetches), st.reason.nodeName)
    ensures st.Err? ==> st.reason.nodeName !in byName
  {
    var starts := FetchNames(fetches);
    var queue := FetchQueue(fetches);
    WalkStart(byName, fed, starts, queue);
    reached := {};
    while queue != []
      invariant WalkInvariant(byName, fed, starts, reached, queue)
      decreases |byName.Keys - reached|, |queue|
    {
      if queue[0] !in byName {
        QueuedReachable(byName, fed, starts, reached, queue);
        return Err(PruneNodeNotFound(queue[0])), reached;
      }
      reached, queue := Pop(byName, fed, starts, reached, queue);
    }
    WalkDone(byName, fed, starts, reached);
    st := Ok;
  }

  /** When the queue is empty the marked names are exactly the needed ones. */
  lemma WalkDone(byName: map<string, NodeDef>, fed: set<(string, int)>, starts: set<string>, reached: set<string>)
    requires WalkInvariant(byName, fed, starts, reached, [])
    ensures reached == ReachableNames(byName, fed, starts)
    ensures forall x :: Reachable(byName, fed, starts, x) ==> x in byName
  {
    forall x | Reachable(byName, fed, starts, x) ensures x in reached {
      ClosedContainsReachable(byName, fed, starts, reached, x);
    }
  }

  /** The fed (node, output) pairs, gathered in feed order. */
  method CollectFed(feeds: seq<Feed>) returns (fed: set<(string, int)>)
    ensures fed == FedTensors(feeds)
  {
    fed := {};
    for i := 0 to |feeds|
      invariant fed == FedTensors(feeds[..i])
    {
      fed := fed + {(feeds[i].id.nodeName, feeds[i].id.outputIndex)};
    }
    assert feeds[..|feeds|] == feeds;
  }

  /** Copies the marked nodes of `graph`, in order. */
  method CopyMarked(graph: seq<NodeDef>, reached: set<string>) returns (out: seq<NodeDef>)
    ensures out == KeepNamed(graph, reached)
  {
    out := [];
    for i := 0 to |graph|
      invariant out == KeepNamed(graph[..i], reached)
    {
      assert graph[..i + 1][..i] == graph[..i];
      if graph[i].name in reached {
        out := out + [graph[i]];
      }
    }
    assert graph[..|graph|] == graph;
  }

  method PruneGraphDefInto(config: Config, graph: seq<NodeDef>) returns (st: Status, out: seq<NodeDef>)
    ensures st.Ok? <==> forall x :: !NeededButMissing(config, graph, x)
    ensures st.Ok? ==> out == Pruned(config, graph)
    ensures st.Err? ==> out == [] && st.reason.PruneNodeNotFound?
                        && NeededButMissing(config, graph, st.reason.nodeName)
  {
    out := [];
    var fed := CollectFed(config.feeds);
    var byName := IndexNodes(graph);
    var reached;
    st, reached := Traverse(byName, fed, config.fetches);
    if st.Err? {
      assert NeededButMissing(config, graph, st.reason.nodeName);
      return;
    }
    out := CopyMarked(graph, reached);
  }

  /** The kept nodes are exactly the nodes of the graph whose names are needed. */
  lemma PrunedMembers(config: Config, graph: seq<NodeDef>, n: NodeDef)
    ensures n in Pruned(config, graph) <==>
      n in graph && Reachable(NodesByName(graph), FedTensors(config.feeds), FetchNames(config.fetches), n.name)
  {
  }

  /** Every node named by a fetch is kept. */
  lemma FetchedNodesKept(config: Config, graph: seq<NodeDef>, i: nat, n: NodeDef)
    requires i < |config.fetches| && n in graph && n.name == config.fetches[i].id.nodeName
    ensures n in Pruned(config, graph)
  {
    var byName := NodesByName(graph);
    StartReachable(byName, FedTensors(config.feeds), FetchNames(config.fetches), n.name);
  }

  /** The filter keeps relative order: filtering a concatenation filters
      each part. */
  lemma {:induction false} KeepNamedAppend(a: seq<NodeDef>, b: seq<NodeDef>, keep: set<string>)
    ensures KeepNamed(a + b, keep) == KeepNamed(a, keep) + KeepNamed(b, keep)
    decreases |b|
  {
    if b == [] {
      assert a + b == a;
    } else {
      var init := b[..|b| - 1];
      assert (a + b)[..|a + b| - 1] == a + init;
      KeepNamedAppend(a, init, keep);
    }
  }

  /** Filtering twice with the same names changes nothing. */
  lemma {:induction false} KeepNamedIdempotent(nodes: seq<NodeDef>, keep: set<string>)
    ensures KeepNamed(KeepNamed(nodes, keep), keep) == KeepNamed(nodes, keep)
    decreases |nodes|
  {
    if nodes != [] {
      var init, last := nodes[..|nodes| - 1], nodes[|nodes| - 1];
      var tail := if last.name in keep then [last] else [];
      KeepNamedIdempotent(init, keep);
      KeepNamedAppend(KeepNamed(init, keep), tail, keep);
      assert KeepNamed(tail, keep) == tail by {
        if tail != [] { assert tail[..0] == []; }
      }
    }
  }

  /** The entries of `byName` whose names are in `keep`. */
  function Restrict(byName: map<string, NodeDef>, keep: set<string>): map<string, NodeDef>
  {
    map x | x in byName && x in keep :: byName[x]
  }

  /** The name index of the filtered nodes is the index of all nodes,
      restricted to the kept names: the last node of each kept name is kept. */
  lemma {:induction false} KeepNamedIndex(nodes: seq<NodeDef>, keep: set<string>)
    ensures NodesByName(KeepNamed(nodes, keep)) == Restrict(NodesByName(nodes), keep)
    decreases |nodes|
  {
    if nodes == [] {
      assert NodesByName(nodes) == map[];
    } else {
      var init, last := nodes[..|nodes| - 1], nodes[|nodes| - 1];
      var before := KeepNamed(init, keep);
      assert nodes == init + [last];
      KeepNamedIndex(init, keep);
      NodesByNameSnoc(init, last);
      RestrictUpdate(NodesByName(init), keep, last.name, last);
      if last.name in keep {
        assert KeepNamed(nodes, keep) == before + [last];
        NodesByNameSnoc(before, last);
      } else {
        assert KeepNamed(nodes, keep) == before;
      }
    }
  }

  /** Writing an entry and then restricting is restricting and then writing
      it, when its name is kept, and just restricting otherwise. */
  lemma RestrictUpdate(byName: map<string, NodeDef>, keep: set<string>, k: string, v: NodeDef)
    ensures k in keep ==> Restrict(byName[k := v], keep) == Restrict(byName, keep)[k := v]
    ensures k !in keep ==> Restrict(byName[k := v], keep) == Restrict(byName, keep)
  {
  }

  /** A walk through the restricted index is a walk through the whole one. */
  lemma PathUnrestricted(byName: map<string, NodeDef>, fed: set<(string, int)>, starts: set<string>,
                         keep: set<string>, p: seq<string>)
    requires IsPath(Restrict(byName, keep), fed, starts, p)
    ensures IsPath(byName, fed, starts, p)
  {
    forall k | 0 <= k < |p| - 1 ensures Step(byName, fed, p[k], p[k + 1]) {
      assert Step(Restrict(byName, keep), fed, p[k], p[k + 1]);
    }
  }

  /** When every needed name exists, a walk from the fetches stays within
      the needed names, so it is a walk through the index restricted to them. */
  lemma PathRestricted(byName: map<string, NodeDef>, fed: set<(string, int)>, starts: set<string>, p: seq<string>)
    requires IsPath(byName, fed, starts, p)
    ensures IsPath(Restrict(byName, ReachableNames(byName, fed, starts)), fed, starts, p)
  {
    var keep := ReachableNames(byName, fed, starts);
    forall k | 0 <= k < |p| - 1 ensures Step(Restrict(byName, keep), fed, p[k], p[k + 1]) {
      var q := p[..k + 1];
      assert IsPath(byName, fed, starts, q) by {
        forall j | 0 <= j < |q| - 1 ensures Step(byName, fed, q[j], q[j + 1]) {
          assert Step(byName, fed, p[j], p[j + 1]);
        }
      }
      assert Step(byName, fed, p[k], p[k + 1]);
      assert p[k] in keep;
    }
  }

  /** Pruning is idempotent: when no needed node is missing, pruning the
      pruned graph again with the same configuration succeeds and changes
      nothing. */
  lemma PruneIdempotent(config: Config, graph: seq<NodeDef>)
    requires forall x :: !NeededButMissing(config, graph, x)
    ensures forall x :: !NeededButMissing(config, Pruned(config, graph), x)
    ensures Pruned(config, Pruned(config, graph)) == Pruned(config, graph)
  {
    var byName, fed, starts := NodesByName(graph), FedTensors(config.feeds), FetchNames(config.fetches);
    var keep := ReachableNames(byName, fed, starts);
    var pruned := KeepNamed(graph, keep);
    KeepNamedIndex(graph, keep);
    var byName' := NodesByName(pruned);
    forall x ensures Reachable(byName', fed, starts, x) <==> Reachable(byName, fed, starts, x) {
      if Reachable(byName', fed, starts, x) {
        var p :| IsPath(byName', fed, starts, p) && p[|p| - 1] == x;
        PathUnrestricted(byName, fed, starts, keep, p);
      }
      if Reachable(byName, fed, starts, x) {
        var p :| IsPath(byName, fed, starts, p) && p[|p| - 1] == x;
        PathRestricted(byName, fed, starts, p);
      }
    }
    forall x ensures !NeededButMissing(config, pruned, x) {
      assert !NeededButMissing(config, graph, x);
    }
    assert ReachableNames(byName', fed, starts) == keep;
    KeepNamedIdempotent(graph, keep);
  }

  /** A producer reached through one unfed input is kept, even when another
      of its outputs is fed. */
  lemma FedProducerKeptViaUnfedInput(config: Config, graph: seq<NodeDef>, x: string, j: nat, n: NodeDef)
    requires x in NodesByName(graph)
    requires Reachable(NodesByName(graph), FedTensors(config.feeds), FetchNames(config.fetches), x)
    requires j < |NodesByName(graph)[x].inputs|
    requires (ParseTensorName(NodesByName(graph)[x].inputs[j]).nodeName,
              ParseTensorName(NodesByName(graph)[x].inputs[j]).outputIndex) !in FedTensors(config.feeds)
    requires n in graph && n.name == ParseTensorName(NodesByName(graph)[x].inputs[j]).nodeName
    ensures n in Pruned(config, graph)
  {
    var byName, fed := NodesByName(graph), FedTensors(config.feeds);
    assert Step(byName, fed, x, n.name);
    ReachableStep(byName, fed, FetchNames(config.fetches), x, n.name);
  }

  /** The names some existing node pushes. */
  function AllFollowed(byName: map<string, NodeDef>, fed: set<(string, int)>): set<string>
  {
    set a, b | a in byName && b in Followed(byName[a].inputs, fed) :: b
  }

  /** Traversal stops at fed tensors: a node that is not fetched and that
      every graph node refers to only through fed (node, output) pairs is
      dropped. */
  lemma FedBoundary(config: Config, graph: seq<NodeDef>, n: NodeDef)
    requires n.name !in FetchNames(config.fetches)
    requires forall m, j :: m in graph && 0 <= j < |m.inputs| && ParseTensorName(m.inputs[j]).nodeName == n.name
               ==> (n.name, ParseTensorName(m.inputs[j]).outputIndex) in FedTensors(config.feeds)
    ensures n !in Pruned(config, graph)
  {
    var byName, fed, starts := NodesByName(graph), FedTensors(config.feeds), FetchNames(config.fetches);
    var s := (starts + AllFollowed(byName, fed)) - {n.name};
    forall a, b | a in s && Step(byName, fed, a, b) ensures b in s {
      assert b in AllFollowed(byName, fed);
      var j :| 0 <= j < |byName[a].inputs| && ParseTensorName(byName[a].inputs[j]).nodeName == b
        && (b, ParseTensorName(byName[a].inputs[j]).outputIndex) !in fed;
      assert byName[a] in graph;
    }
    if Reachable(byName, fed, starts, n.name) {
      ClosedContainsReachable(byName, fed, starts, s, n.name);
    }
  }
}
