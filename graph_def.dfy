/** The records the rewriting routines read and build: node definitions with
    their attribute values, and the feed/fetch configuration. */
module GraphDefs {

  /** A tensor element type; `DtInvalid` marks "not declared". */
  type DataType = nat
  const DtInvalid: DataType := 0

  /** A tensor shape: the dimension sizes (-1 for unknown) or unknown rank. */
  datatype Shape = Shape(dims: seq<int>, unknownRank: bool)

  /** Attribute values are a tagged union; `Func` embeds a reference to a
      function of the library together with that function's own attributes. */
  datatype AttrValue =
    | Type(dtype: DataType)
    | ShapeValue(shape: Shape)
    | Func(func: NameAttrList)
    | Scalar(text: string)

  datatype NameAttrList = NameAttrList(name: string, attr: map<string, AttrValue>)

  /** A node of a graph description: its inputs are tensor names such as
      "x", "x:1" or, for control inputs, "^x". */
  datatype NodeDef = NodeDef(
    name: string,
    op: string,
    inputs: seq<string>,
    attrs: map<string, AttrValue>,
    device: string)

  /** A reference to output `outputIndex` of node `nodeName`. */
  datatype TensorId = TensorId(nodeName: string, outputIndex: int)

  datatype Feed = Feed(id: TensorId, shape: Shape, name: string, dtype: DataType)

  datatype Fetch = Fetch(id: TensorId, name: string)

  datatype Config = Config(feeds: seq<Feed>, fetches: seq<Fetch>)
}

/** Tables filled by writing entries in order, so that a later write under
    the same key replaces an earlier one; looking nodes up by name, as the
    `name_to_node` and `node_by_name` tables of the source do, is one. */
module NodeIndex {
  import opened Text
  import opened GraphDefs

  /** `k` is among the first `n` keys. */
  ghost predicate Written(keys: seq<string>, k: string, n: nat)
  {
    exists j :: 0 <= j < n && j < |keys| && keys[j] == k
  }

  /** The position of the last occurrence of `k` among the first `n` keys. */
  function LastIndex(keys: seq<string>, k: string, n: nat): (r: nat)
    requires n <= |keys| && Written(keys, k, n)
    ensures r < n && keys[r] == k
    ensures forall j :: r < j < n ==> keys[j] != k
  {
    if keys[n - 1] == k then n - 1
    else
      assert Written(keys, k, n - 1) by {
        var j :| 0 <= j < n && keys[j] == k;
        assert j < n - 1;
      }
      LastIndex(keys, k, n - 1)
  }

  /** The map after writing `vals[i]` under `keys[i]` for i = 0 .. n-1: the
      name-to-node tables and the feed tables are filled this way. */
  function Table<V>(keys: seq<string>, vals: seq<V>, n: nat): map<string, V>
    requires |keys| == |vals| && n <= |keys|
  {
    if n == 0 then map[] else Table(keys, vals, n - 1)[keys[n - 1] := vals[n - 1]]
  }

  /** The table holds exactly the written keys. */
  lemma {:induction false} TableKeys<V>(keys: seq<string>, vals: seq<V>, n: nat)
    requires |keys| == |vals| && n <= |keys|
    ensures forall k :: k in Table(keys, vals, n) <==> Written(keys, k, n)
  {
    if n > 0 {
      TableKeys(keys, vals, n - 1);
      forall k | Written(keys, k, n) ensures k in Table(keys, vals, n) {
        var j :| 0 <= j < n && keys[j] == k;
        if j < n - 1 {
          assert Written(keys, k, n - 1);
        }
      }
      forall k | k in Table(keys, vals, n) ensures Written(keys, k, n) {
        if k == keys[n - 1] {
          assert 0 <= n - 1 < n && keys[n - 1] == k;
        } else {
          assert k in Table(keys, vals, n - 1);
          var j :| 0 <= j < n - 1 && j < |keys| && keys[j] == k;
        }
      }
    }
  }

  /** Last write wins: each written key holds the value of its last write. */
  lemma {:induction false} TableLast<V>(keys: seq<string>, vals: seq<V>, n: nat)
    requires |keys| == |vals| && n <= |keys|
    ensures forall k :: Written(keys, k, n) ==>
      k in Table(keys, vals, n) && Table(keys, vals, n)[k] == vals[LastIndex(keys, k, n)]
  {
    if n > 0 {
      TableLast(keys, vals, n - 1);
      forall k | Written(keys, k, n)
        ensures k in Table(keys, vals, n) && Table(keys, vals, n)[k] == vals[LastIndex(keys, k, n)]
      {
        if k != keys[n - 1] {
          var j :| 0 <= j < n && keys[j] == k;
          assert Written(keys, k, n - 1);
        }
      }
    }
  }

  /** Every key of a whole sequence is written. */
  lemma AllWritten(keys: seq<string>, i: nat)
    requires i < |keys|
    ensures Written(keys, keys[i], |keys|)
  {
  }

  function NodeNames(nodes: seq<NodeDef>): seq<string>
  {
    seq(|nodes|, i requires 0 <= i < |nodes| => nodes[i].name)
  }

  /** The name-to-node table of a graph: every node is written under its
      name, in order, so a repeated name keeps its last node. */
  function NodesByName(nodes: seq<NodeDef>): (m: map<string, NodeDef>)
    ensures forall i :: 0 <= i < |nodes| ==> nodes[i].name in m
    ensures forall n :: n in m ==> m[n].name == n && m[n] in nodes
  {
    var names := NodeNames(nodes);
    TableKeys(names, nodes, |nodes|);
    TableLast(names, nodes, |nodes|);
    assert forall i :: 0 <= i < |nodes| ==> Written(names, nodes[i].name, |nodes|) by {
      forall i | 0 <= i < |nodes| ensures Written(names, nodes[i].name, |nodes|) {
        AllWritten(names, i);
      }
    }
    Table(names, nodes, |nodes|)
  }

  /** The table holds, for each name, the last node of that name. */
  lemma NodesByNameLastWins(nodes: seq<NodeDef>, i: nat)
    requires i < |nodes|
    requires forall j :: i < j < |nodes| ==> nodes[j].name != nodes[i].name
    ensures NodesByName(nodes)[nodes[i].name] == nodes[i]
  {
    var names := NodeNames(nodes);
    TableLast(names, nodes, |nodes|);
    AllWritten(names, i);
    assert LastIndex(names, names[i], |nodes|) == i;
  }

  /** Tables written from the same first `n` entries are equal. */
  lemma {:induction false} TablePrefix<V>(keys: seq<string>, vals: seq<V>, keys': seq<string>, vals': seq<V>, n: nat)
    requires |keys| == |vals| && |keys'| == |vals'| && n <= |keys| && n <= |keys'|
    requires keys[..n] == keys'[..n] && vals[..n] == vals'[..n]
    ensures Table(keys, vals, n) == Table(keys', vals', n)
  {
    if n > 0 {
      assert keys[..n - 1] == keys[..n][..n - 1] && keys'[..n - 1] == keys'[..n][..n - 1];
      assert vals[..n - 1] == vals[..n][..n - 1] && vals'[..n - 1] == vals'[..n][..n - 1];
      assert keys[n - 1] == keys[..n][n - 1] && keys'[n - 1] == keys'[..n][n - 1];
      assert vals[n - 1] == vals[..n][n - 1] && vals'[n - 1] == vals'[..n][n - 1];
      TablePrefix(keys, vals, keys', vals', n - 1);
    }
  }

  /** Indexing one more node writes it under its name. */
  lemma NodesByNameSnoc(nodes: seq<NodeDef>, x: NodeDef)
    ensures NodesByName(nodes + [x]) == NodesByName(nodes)[x.name := x]
  {
    var all := nodes + [x];
    var names := NodeNames(all);
    assert names[..|nodes|] == NodeNames(nodes);
    assert all[..|nodes|] == nodes;
    assert NodeNames(nodes)[..|nodes|] == NodeNames(nodes) && nodes[..|nodes|] == nodes;
    TablePrefix(names, all, NodeNames(nodes), nodes, |nodes|);
  }

  /** Builds the name-to-node table, writing the nodes in order. */
  method IndexNodes(graph: seq<NodeDef>) returns (byName: map<string, NodeDef>)
    ensures byName == NodesByName(graph)
  {
    ghost var names := NodeNames(graph);
    byName := map[];
    for i := 0 to |graph|
      invariant byName == Table(names, graph, i)
    {
      byName := byName[graph[i].name := graph[i]];
    }
  }
}
