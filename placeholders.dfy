/** `AddPlaceholdersForFeeds`: one placeholder node per distinct fed tensor,
    named deterministically, and every consumer of a fed tensor repointed at
    its placeholder. */
module Placeholders {
  import opened Errors
  import opened GraphDefs
  import opened Text
  import opened TensorIds
  import opened NodeIndex

  const PlaceholderOp := "PlaceholderV2"

  /** The "name:index" key a feed is grouped under. */
  function FeedKey(f: Feed): string
  {
    TensorIdToString(f.id)
  }

  /** The key of every feed, in feed order. */
  function FeedKeys(feeds: seq<Feed>): seq<string>
  {
    seq(|feeds|, i requires 0 <= i < |feeds| => FeedKey(feeds[i]))
  }

  /** "aot_feed_<index>/<name>". */
  function PlaceholderName(id: TensorId): string
  {
    "aot_feed_" + IntToString(id.outputIndex) + "/" + id.nodeName
  }

  /** The placeholder name of every feed, in feed order. */
  function PlaceholderNames(feeds: seq<Feed>): seq<string>
  {
    seq(|feeds|, i requires 0 <= i < |feeds| => PlaceholderName(feeds[i].id))
  }

  function Groups(feeds: seq<Feed>): map<string, Feed>
  {
    Table(FeedKeys(feeds), feeds, |feeds|)
  }

  function Remapping(feeds: seq<Feed>): map<string, string>
  {
    Table(FeedKeys(feeds), PlaceholderNames(feeds), |feeds|)
  }

  /** Every group is filed under its own feed's key and holds the last feed
      with that key; there is a group, and a remapping entry naming its
      placeholder, for exactly the keys of the feeds. */
  lemma GroupsSpec(feeds: seq<Feed>)
    ensures Groups(feeds).Keys == Remapping(feeds).Keys == Elems(FeedKeys(feeds))
    ensures forall k :: k in Groups(feeds) ==> FeedKey(Groups(feeds)[k]) == k && Groups(feeds)[k] in feeds
    ensures forall k :: k in Remapping(feeds) ==> Remapping(feeds)[k] == PlaceholderName(Groups(feeds)[k].id)
  {
    var keys, names, n := FeedKeys(feeds), PlaceholderNames(feeds), |feeds|;
    TableKeys(keys, feeds, n);
    TableKeys(keys, names, n);
    TableLast(keys, feeds, n);
    TableLast(keys, names, n);
    forall k ensures k in Groups(feeds) <==> k in Elems(keys) {
      if k in keys {
        var i :| 0 <= i < n && keys[i] == k;
        AllWritten(keys, i);
      }
    }
    forall k | k in Groups(feeds)
      ensures FeedKey(Groups(feeds)[k]) == k && Groups(feeds)[k] in feeds
      ensures Remapping(feeds)[k] == PlaceholderName(Groups(feeds)[k].id)
    {
      var j := LastIndex(keys, k, n);
      assert Groups(feeds)[k] == feeds[j];
    }
  }

  /** Every feed's key has a group and a remapping entry. */
  lemma FeedKeyGrouped(feeds: seq<Feed>, f: Feed)
    requires f in feeds
    ensures FeedKey(f) in Groups(feeds) && FeedKey(f) in Remapping(feeds)
  {
    GroupsSpec(feeds);
    var i :| 0 <= i < |feeds| && feeds[i] == f;
    assert FeedKeys(feeds)[i] == FeedKey(f);
  }

  /** The keys in the order `std::map` visits them. */
  function SortedKeys(feeds: seq<Feed>): (keys: seq<string>)
    ensures StrictlySorted(keys)
    ensures Elems(keys) == Groups(feeds).Keys
    ensures forall k :: k in keys ==> k in Groups(feeds) && Groups(feeds)[k] in feeds
  {
    GroupsSpec(feeds);
    SortedDistinct(FeedKeys(feeds))
  }

  /** The data type of a group's placeholder: declared, or inferred from the
      fed node's output types (`infer` stands for building the node with its
      default attributes; `None` is a failure to build it). */
  function ResolveType(feed: Feed, byName: map<string, NodeDef>,
                       infer: NodeDef -> Option<seq<DataType>>): Result<DataType>
    requires feed.id.outputIndex >= 0
  {
    var name := feed.id.nodeName;
    if name !in byName then Failure(FeedNodeNotFound(TensorIdToString(feed.id)))
    else if feed.dtype != DtInvalid then Success(feed.dtype)
    else match infer(byName[name])
      case None => Failure(TypeInferenceFailed(name))
      case Some(types) =>
        if feed.id.outputIndex < |types| then Success(types[feed.id.outputIndex])
        else Failure(InvalidFeedOutputIndex(name, feed.id.outputIndex))
  }

  predicate NonNegativeIndices(feeds: seq<Feed>)
  {
    forall i :: 0 <= i < |feeds| ==> feeds[i].id.outputIndex >= 0
  }

  /** The types of the groups `keys`, in order, or the first failure. */
  function ResolveAll(keys: seq<string>, groups: map<string, Feed>, byName: map<string, NodeDef>,
                      infer: NodeDef -> Option<seq<DataType>>): (r: Result<seq<DataType>>)
    requires forall k :: k in keys ==> k in groups && groups[k].id.outputIndex >= 0
    ensures r.Success? ==> |r.value| == |keys|
  {
    if keys == [] then Success([])
    else match ResolveType(groups[keys[0]], byName, infer)
      case Failure(e) => Failure(e)
      case Success(d) =>
        match ResolveAll(keys[1..], groups, byName, infer)
        case Failure(e) => Failure(e)
        case Success(ds) => Success([d] + ds)
  }

  /** `ds` followed by the types of `r`, or the failure of `r`. */
  function Prepend(ds: seq<DataType>, r: Result<seq<DataType>>): Result<seq<DataType>>
  {
    match r
    case Failure(e) => Failure(e)
    case Success(rest) => Success(ds + rest)
  }

  function PlaceholderNode(feed: Feed, dtype: DataType): NodeDef
  {
    NodeDef(PlaceholderName(feed.id), PlaceholderOp, [],
            map["dtype" := Type(dtype), "shape" := ShapeValue(feed.shape)], "")
  }

  function PlaceholderNodes(keys: seq<string>, groups: map<string, Feed>, dtypes: seq<DataType>)
    : seq<NodeDef>
    requires forall k :: k in keys ==> k in groups
    requires |dtypes| == |keys|
  {
    seq(|keys|, i requires 0 <= i < |keys| => PlaceholderNode(groups[keys[i]], dtypes[i]))
  }

  /** An input naming a fed tensor becomes its placeholder's name. */
  function RewriteInput(input: string, remap: map<string, string>): string
  {
    var key := Canonical(input);
    if key in remap then remap[key] else input
  }

  function RewriteNode(n: NodeDef, remap: map<string, string>): NodeDef
  {
    n.(inputs := seq(|n.inputs|, k requires 0 <= k < |n.inputs| => RewriteInput(n.inputs[k], remap)))
  }

  function RewriteAll(nodes: seq<NodeDef>, remap: map<string, string>): (r: seq<NodeDef>)
    ensures |r| == |nodes|
  {
    seq(|nodes|, i requires 0 <= i < |nodes| => RewriteNode(nodes[i], remap))
  }

  /** Placeholders have no inputs, so the rewrite leaves them as they are. */
  lemma RewritePlaceholdersUnchanged(graph: seq<NodeDef>, ps: seq<NodeDef>, remap: map<string, string>)
    requires forall i :: 0 <= i < |ps| ==> ps[i].inputs == []
    ensures RewriteAll(graph + ps, remap) == RewriteAll(graph, remap) + ps
  {
    var l := RewriteAll(graph + ps, remap);
    var r := RewriteAll(graph, remap) + ps;
    forall i | 0 <= i < |l| ensures l[i] == r[i] {
      if i >= |graph| {
        assert (graph + ps)[i] == ps[i - |graph|];
      }
    }
  }

  /** One more feed: the key's entry, in the table and in the remapping
      that extends `remapIn`, becomes that feed's. */
  lemma GroupStep<V>(keys: seq<string>, vals: seq<V>, remapIn: map<string, V>, i: nat)
    requires |keys| == |vals| && i < |keys|
    ensures Table(keys, vals, i + 1) == Table(keys, vals, i)[keys[i] := vals[i]]
    ensures remapIn + Table(keys, vals, i + 1) == (remapIn + Table(keys, vals, i))[keys[i] := vals[i]]
  {
  }

  /** First phase: files every feed under its key, in feed order, and
      maps the key to the feed's placeholder name. */
  method GroupFeeds(feeds: seq<Feed>, remapIn: map<string, string>)
    returns (groups: map<string, Feed>, remap: map<string, string>)
    ensures groups == Groups(feeds)
    ensures remap == remapIn + Remapping(feeds)
  {
    groups, remap := FileAll(FeedKeys(feeds), feeds, PlaceholderNames(feeds), remapIn);
  }

  /** Files `xs[i]` and `ys[i]` under `keys[i]`, for `i` in order; the
      entries of `ys` extend `ysIn`. */
  method FileAll<A, B>(keys: seq<string>, xs: seq<A>, ys: seq<B>, ysIn: map<string, B>)
    returns (tx: map<string, A>, ty: map<string, B>)
    requires |keys| == |xs| == |ys|
    ensures tx == Table(keys, xs, |keys|)
    ensures ty == ysIn + Table(keys, ys, |keys|)
  {
    tx, ty := map[], ysIn;
    for i := 0 to |keys|
      invariant tx == Table(keys, xs, i)
      invariant ty == ysIn + Table(keys, ys, i)
    {
      GroupStep(keys, xs, map[], i);
      GroupStep(keys, ys, ysIn, i);
      tx, ty := tx[keys[i] := xs[i]], ty[keys[i] := ys[i]];
    }
  }

  /** Second phase: checks that every fed node exists and determines the
      placeholder types, group by group in key order. */
  method ResolveTypes(keys: seq<string>, groups: map<string, Feed>, byName: map<string, NodeDef>,
                      infer: NodeDef -> Option<seq<DataType>>)
    returns (st: Status, dtypes: seq<DataType>)
    requires forall k :: k in keys ==> k in groups && groups[k].id.outputIndex >= 0
    ensures st == ResolveAll(keys, groups, byName, infer).ToStatus()
    ensures st.Ok? ==> dtypes == ResolveAll(keys, groups, byName, infer).value
  {
    dtypes := [];
    assert keys[0..] == keys;
    match ResolveAll(keys, groups, byName, infer) {
      case Success(ds) => assert [] + ds == ds;
      case Failure(_) =>
    }
    for i := 0 to |keys|
      invariant |dtypes| == i
      invariant ResolveAll(keys, groups, byName, infer) == Prepend(dtypes, ResolveAll(keys[i..], groups, byName, infer))
    {
      assert keys[i..][1..] == keys[i + 1..];
      assert keys[i..][0] == keys[i];
      var feed := groups[keys[i]];
      var name := feed.id.nodeName;
      if name !in byName {
        return Err(FeedNodeNotFound(TensorIdToString(feed.id))), dtypes;
      }
      var dtype: DataType;
      if feed.dtype != DtInvalid {
        dtype := feed.dtype;
      } else {
        var types := infer(byName[name]);
        if types.None? {
          return Err(TypeInferenceFailed(name)), dtypes;
        }
        if feed.id.outputIndex < |types.value| {
          dtype := types.value[feed.id.outputIndex];
        } else {
          return Err(InvalidFeedOutputIndex(name, feed.id.outputIndex)), dtypes;
        }
      }
      ghost var rest := ResolveAll(keys[i + 1..], groups, byName, infer);
      assert ResolveAll(keys[i..], groups, byName, infer) == Prepend([dtype], rest);
      assert rest.Success? ==> dtypes + ([dtype] + rest.value) == (dtypes + [dtype]) + rest.value;
      dtypes := dtypes + [dtype];
    }
    assert keys[|keys|..] == [];
    assert dtypes + [] == dtypes;
    st := Ok;
  }

  /** Third phase: one placeholder node per group, appended in key order. */
  method AppendPlaceholders(graph: seq<NodeDef>, keys: seq<string>, groups: map<string, Feed>,
                            dtypes: seq<DataType>)
    returns (nodes: seq<NodeDef>)
    requires forall k :: k in keys ==> k in groups
    requires |dtypes| == |keys|
    ensures nodes == graph + PlaceholderNodes(keys, groups, dtypes)
  {
    ghost var ps := PlaceholderNodes(keys, groups, dtypes);
    nodes := graph;
    for i := 0 to |keys|
      invariant nodes == graph + ps[..i]
    {
      AppendStep(graph, ps, i, nodes);
      nodes := nodes + [PlaceholderNode(groups[keys[i]], dtypes[i])];
    }
    AppendStep(graph, ps, |ps|, nodes);
  }

  /** Appending the next element of `ps` extends the prefix by one; the
      whole prefix is `ps` itself. */
  lemma AppendStep<T>(base: seq<T>, ps: seq<T>, i: nat, acc: seq<T>)
    requires i <= |ps| && acc == base + ps[..i]
    ensures i < |ps| ==> acc + [ps[i]] == base + ps[..i + 1]
    ensures i == |ps| ==> acc == base + ps
  {
    if i < |ps| {
      assert ps[..i + 1] == ps[..i] + [ps[i]];
    } else {
      assert ps[..i] == ps;
    }
  }

  /** Last phase: repoints every input that names a fed tensor. */
  method RewriteInputs(graph: seq<NodeDef>, groups: map<string, Feed>, ghost remap: map<string, string>)
    returns (nodes: seq<NodeDef>)
    requires groups.Keys == remap.Keys
    requires forall k :: k in remap ==> remap[k] == PlaceholderName(groups[k].id)
    ensures nodes == RewriteAll(graph, remap)
  {
    nodes := graph;
    for i := 0 to |nodes|
      invariant |nodes| == |graph|
      invariant forall k :: 0 <= k < i ==> nodes[k] == RewriteNode(graph[k], remap)
      invariant forall k :: i <= k < |nodes| ==> nodes[k] == graph[k]
    {
      var node := nodes[i];
      var inputs := node.inputs;
      for j := 0 to |inputs|
        invariant |inputs| == |node.inputs|
        invariant forall k :: 0 <= k < j ==> inputs[k] == RewriteInput(node.inputs[k], remap)
        invariant forall k :: j <= k < |inputs| ==> inputs[k] == node.inputs[k]
      {
        var key := ParsedToString(ParseTensorName(inputs[j]));
        if key in groups {
          inputs := inputs[j := PlaceholderName(groups[key].id)];
        }
      }
      nodes := nodes[i := node.(inputs := inputs)];
    }
  }

  method AddPlaceholdersForFeeds(config: Config, infer: NodeDef -> Option<seq<DataType>>,
                                 remapIn: map<string, string>, graph: seq<NodeDef>)
    returns (st: Status, remap: map<string, string>, nodes: seq<NodeDef>)
    requires NonNegativeIndices(config.feeds)
    ensures remap == remapIn + Remapping(config.feeds)
    ensures
      var keys := SortedKeys(config.feeds);
      var groups := Groups(config.feeds);
      var plan := ResolveAll(keys, groups, NodesByName(graph), infer);
      && st == plan.ToStatus()
      && (plan.Failure? ==> nodes == graph)
      && (plan.Success? ==>
            nodes == RewriteAll(graph, Remapping(config.feeds)) + PlaceholderNodes(keys, groups, plan.value))
  {
    var groups;
    groups, remap := GroupFeeds(config.feeds, remapIn);
    GroupsSpec(config.feeds);
    var byName := IndexNodes(graph);
    var keys := SortedKeys(config.feeds);
    var dtypes;
    st, dtypes := ResolveTypes(keys, groups, byName, infer);
    if st.Err? {
      return st, remap, graph;
    }
    nodes := AppendPlaceholders(graph, keys, groups, dtypes);
    nodes := RewriteInputs(nodes, groups, Remapping(config.feeds));
    RewritePlaceholdersUnchanged(graph, PlaceholderNodes(keys, groups, dtypes), Remapping(config.feeds));
  }

  // ---------------------------------------------------------------------
  // What the insertion promises.

  predicate ValidFeedIds(feeds: seq<Feed>)
  {
    forall i :: 0 <= i < |feeds| ==> ValidTensorId(feeds[i].id)
  }

  /** The group of a key holds the last feed with that key, so that feed
      supplies the placeholder's declared type and shape. */
  lemma GroupsLastFeedWins(feeds: seq<Feed>, i: nat)
    requires i < |feeds|
    requires forall j :: i < j < |feeds| ==> FeedKey(feeds[j]) != FeedKey(feeds[i])
    ensures FeedKey(feeds[i]) in Groups(feeds) && Groups(feeds)[FeedKey(feeds[i])] == feeds[i]
  {
    var keys := FeedKeys(feeds);
    TableLast(keys, feeds, |feeds|);
    AllWritten(keys, i);
    assert LastIndex(keys, keys[i], |feeds|) == i;
  }

  lemma PlaceholderNameInjective(a: TensorId, b: TensorId)
    requires ValidTensorId(a) && ValidTensorId(b)
    requires PlaceholderName(a) == PlaceholderName(b)
    ensures a == b
  {
    var da, db := IntToString(a.outputIndex), IntToString(b.outputIndex);
    assert PlaceholderName(a)[9..] == da + ['/'] + a.nodeName;
    assert PlaceholderName(b)[9..] == db + ['/'] + b.nodeName;
    SplitAfterDigits(da, a.nodeName, db, b.nodeName, '/');
    IntToStringInjective(a.outputIndex, b.outputIndex);
  }

  /** Every fed string maps to "aot_feed_<index>/<name>" of its own tensor. */
  lemma RemappingNamesPlaceholder(feeds: seq<Feed>, f: Feed)
    requires ValidFeedIds(feeds) && f in feeds
    ensures FeedKey(f) in Remapping(feeds)
    ensures Remapping(feeds)[FeedKey(f)] == PlaceholderName(f.id)
  {
    GroupsSpec(feeds);
    FeedKeyGrouped(feeds, f);
    var k := FeedKey(f);
    var g := Groups(feeds)[k];
    TensorIdToStringInjective(g.id, f.id);
  }

  /** Distinct groups get distinct placeholder names. */
  lemma GroupPlaceholdersDistinct(feeds: seq<Feed>, k1: string, k2: string)
    requires ValidFeedIds(feeds)
    requires k1 in Groups(feeds) && k2 in Groups(feeds) && k1 != k2
    ensures PlaceholderName(Groups(feeds)[k1].id) != PlaceholderName(Groups(feeds)[k2].id)
  {
    GroupsSpec(feeds);
    var g1, g2 := Groups(feeds)[k1], Groups(feeds)[k2];
    if PlaceholderName(g1.id) == PlaceholderName(g2.id) {
      PlaceholderNameInjective(g1.id, g2.id);
      assert false;
    }
  }

  /** Feeds of the same tensor collapse into one placeholder: the appended
      nodes are one per distinct key, with pairwise distinct names, and every
      feed's placeholder is among them. */
  lemma OnePlaceholderPerFedTensor(feeds: seq<Feed>, dtypes: seq<DataType>)
    requires ValidFeedIds(feeds)
    requires |dtypes| == |SortedKeys(feeds)|
    ensures var ps := PlaceholderNodes(SortedKeys(feeds), Groups(feeds), dtypes);
      && |ps| == |Groups(feeds).Keys|
      && (forall i, j :: 0 <= i < j < |ps| ==> ps[i].name != ps[j].name)
      && (forall f :: f in feeds ==> exists i :: 0 <= i < |ps| && ps[i].name == PlaceholderName(f.id))
  {
    var keys := SortedKeys(feeds);
    var groups := Groups(feeds);
    var ps := PlaceholderNodes(keys, groups, dtypes);
    StrictlySortedCard(keys);
    forall i, j | 0 <= i < j < |ps| ensures ps[i].name != ps[j].name {
      StrictlySortedDistinct(keys, i, j);
      GroupPlaceholdersDistinct(feeds, keys[i], keys[j]);
    }
    forall f | f in feeds ensures exists i :: 0 <= i < |ps| && ps[i].name == PlaceholderName(f.id) {
      RemappingNamesPlaceholder(feeds, f);
      GroupsSpec(feeds);
      assert FeedKey(f) in Elems(keys);
      var i :| 0 <= i < |keys| && keys[i] == FeedKey(f);
      assert ps[i].name == PlaceholderName(groups[keys[i]].id);
    }
  }

  /** An input whose canonical form is a fed key now names that feed's
      placeholder; the node keeps its name, op, attributes, device and
      number of inputs. */
  lemma FedInputRewritten(feeds: seq<Feed>, graph: seq<NodeDef>, i: nat, j: nat, f: Feed)
    requires ValidFeedIds(feeds) && f in feeds
    requires i < |graph| && j < |graph[i].inputs|
    requires Canonical(graph[i].inputs[j]) == FeedKey(f)
    ensures var n := RewriteAll(graph, Remapping(feeds))[i];
      && n.name == graph[i].name && n.op == graph[i].op && n.attrs == graph[i].attrs
      && n.device == graph[i].device && |n.inputs| == |graph[i].inputs|
      && n.inputs[j] == PlaceholderName(f.id)
  {
    RemappingNamesPlaceholder(feeds, f);
  }

  /** An input whose canonical form is no fed key is left as written. */
  lemma UnfedInputUnchanged(feeds: seq<Feed>, graph: seq<NodeDef>, i: nat, j: nat)
    requires i < |graph| && j < |graph[i].inputs|
    requires forall f :: f in feeds ==> Canonical(graph[i].inputs[j]) != FeedKey(f)
    ensures RewriteAll(graph, Remapping(feeds))[i].inputs[j] == graph[i].inputs[j]
  {
    GroupsSpec(feeds);
  }

  /** Both ways of writing a fed output-0 tensor, "x" and "x:0", are
      repointed at the same placeholder. */
  lemma BothSpellingsRewritten(feeds: seq<Feed>, f: Feed)
    requires ValidFeedIds(feeds) && f in feeds && f.id.outputIndex == 0
    requires f.id.nodeName[0] != '^'
    requires forall k :: 0 <= k < |f.id.nodeName| ==> f.id.nodeName[k] != ':'
    ensures RewriteInput(f.id.nodeName, Remapping(feeds)) == PlaceholderName(f.id)
    ensures RewriteInput(TensorIdToString(f.id), Remapping(feeds)) == PlaceholderName(f.id)
  {
    RemappingNamesPlaceholder(feeds, f);
    BareNameIsOutputZero(f.id.nodeName);
    CanonicalOfTensorIdString(f.id);
  }

  /** Type resolution fails exactly when some group fails, and otherwise
      gives each group its own resolved type. */
  lemma {:induction false} ResolveAllSpec(keys: seq<string>, groups: map<string, Feed>,
                                          byName: map<string, NodeDef>, infer: NodeDef -> Option<seq<DataType>>)
    requires forall k :: k in keys ==> k in groups && groups[k].id.outputIndex >= 0
    ensures ResolveAll(keys, groups, byName, infer).Failure? <==>
      exists i :: 0 <= i < |keys| && ResolveType(groups[keys[i]], byName, infer).Failure?
    ensures ResolveAll(keys, groups, byName, infer).Success? ==>
      forall i :: 0 <= i < |keys| ==>
        ResolveAll(keys, groups, byName, infer).value[i] == ResolveType(groups[keys[i]], byName, infer).value
  {
    if keys != [] {
      ResolveAllSpec(keys[1..], groups, byName, infer);
      if ResolveType(groups[keys[0]], byName, infer).Success? {
        forall i | 0 < i < |keys| ensures keys[i] == keys[1..][i - 1] { }
        if exists i :: 0 <= i < |keys| && ResolveType(groups[keys[i]], byName, infer).Failure? {
          var i :| 0 <= i < |keys| && ResolveType(groups[keys[i]], byName, infer).Failure?;
          assert keys[1..][i - 1] == keys[i];
        }
      }
    }
  }

  /** A feed whose node is absent from the graph makes the insertion fail,
      before any placeholder is appended. */
  lemma {:induction false} MissingFeedNodeFails(feeds: seq<Feed>, graph: seq<NodeDef>, infer: NodeDef -> Option<seq<DataType>>, f: Feed)
    requires NonNegativeIndices(feeds) && ValidFeedIds(feeds) && f in feeds
    requires forall i :: 0 <= i < |graph| ==> graph[i].name != f.id.nodeName
    ensures ResolveAll(SortedKeys(feeds), Groups(feeds), NodesByName(graph), infer).Failure?
  {
    GroupsSpec(feeds);
    FeedKeyGrouped(feeds, f);
    var k := FeedKey(f);
    var g := Groups(feeds)[k];
    TensorIdToStringInjective(g.id, f.id);
    var byName := NodesByName(graph);
    assert f.id.nodeName !in byName;
    assert ResolveType(g, byName, infer).Failure?;
    var keys, groups := SortedKeys(feeds), Groups(feeds);
    assert k in Elems(keys);
    var i :| 0 <= i < |keys| && keys[i] == k;
    ResolveAllSpec(keys, groups, byName, infer);
  }
}
