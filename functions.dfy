/** Functions a node refers to, and rewriting a node to refer to a renamed
    function: `HasAssociatedFunction`, `GetAssociatedFunctions` and
    `RewriteAssociatedFunction`, over a function library. */
module AssociatedFunctions {
  import opened Errors
  import opened GraphDefs
  import opened Text
  import opened TensorIds
  import opened Graphs

  /** The op of a gradient node, and its attribute naming the function it
      differentiates. */
  const GradientOp := "SymbolicGradient"
  const FuncAttr := "f"

  /** A function library: the functions defined in it and the registered
      gradient function of each function; an empty gradient name counts as
      no gradient. */
  class FunctionLibrary {
    var functions: set<string>
    var gradients: map<string, string>

    constructor (functions: set<string>, gradients: map<string, string>)
      ensures this.functions == functions && this.gradients == gradients
    {
      this.functions, this.gradients := functions, gradients;
    }

    function Contains(name: string): bool
      reads this
    {
      name in functions
    }

    /** The gradient registered for `f`, or "" when there is none. */
    function FindGradient(f: string): string
      reads this
    {
      if f in gradients then gradients[f] else ""
    }

    /** Registers `g` as the gradient of `f`; fails when `f` already has a
        different non-empty gradient. */
    method AddGradientDef(f: string, g: string) returns (st: Status)
      modifies this
      ensures functions == old(functions)
      ensures old(FindGradient(f)) != "" && old(FindGradient(f)) != g ==>
                st == Err(GradientConflict(f)) && gradients == old(gradients)
      ensures old(FindGradient(f)) == "" ==> st == Ok && gradients == old(gradients)[f := g]
      ensures old(FindGradient(f)) != "" && old(FindGradient(f)) == g ==> st == Ok && gradients == old(gradients)
    {
      var current := FindGradient(f);
      if current != "" {
        if current != g {
          return Err(GradientConflict(f));
        }
        return Ok;
      }
      gradients := gradients[f := g];
      st := Ok;
    }

    /** Removes the entry of `f` and registers `g` in its place; fails when
        `f` has no entry. */
    method ReplaceGradient(f: string, g: string) returns (st: Status)
      modifies this
      ensures functions == old(functions)
      ensures f !in old(gradients) ==> st == Err(NoGradient(f)) && gradients == old(gradients)
      ensures f in old(gradients) ==> st == Ok && gradients == old(gradients)[f := g]
    {
      if f !in gradients {
        return Err(NoGradient(f));
      }
      gradients := gradients - {f};
      st := AddGradientDef(f, g);
    }
  }

  /** What a node's associated function is: the node calls it, the node
      takes its gradient, or one of its attributes names it. */
  datatype AssociatedFunctionInfo =
    | FunctionCall(funcName: string, attrs: map<string, AttrValue>)
    | SymbolicGradient(funcName: string, attrs: map<string, AttrValue>)
    | FunctionAttr(funcName: string, attrs: map<string, AttrValue>, attrName: string)

  predicate HasFuncAttr(attrs: map<string, AttrValue>)
  {
    exists k :: k in attrs && attrs[k].Func?
  }


  /** One `FunctionAttr` entry per function-valued attribute among `keys`,
      in an unspecified order (the attribute map is unordered). */
  ghost function FuncAttrEntries(attrs: map<string, AttrValue>, keys: set<string>): (r: seq<AssociatedFunctionInfo>)
    requires keys <= attrs.Keys
    ensures forall i :: 0 <= i < |r| ==>
      && r[i].FunctionAttr? && r[i].attrName in keys
      && attrs[r[i].attrName] == Func(NameAttrList(r[i].funcName, r[i].attrs))
    ensures forall k :: k in keys && attrs[k].Func? ==> exists i :: 0 <= i < |r| && r[i].attrName == k
    ensures forall i, j :: 0 <= i < j < |r| ==> r[i].attrName != r[j].attrName
    decreases keys
  {
    if keys == {} then []
    else
      var k :| k in keys;
      var rest := FuncAttrEntries(attrs, keys - {k});
      if attrs[k].Func? then
        var r := rest + [FunctionAttr(attrs[k].func.name, attrs[k].func.attr, k)];
        assert forall j :: j in keys - {k} && attrs[j].Func? ==> exists i :: 0 <= i < |r| && r[i].attrName == j by {
          forall j | j in keys - {k} && attrs[j].Func? ensures exists i :: 0 <= i < |r| && r[i].attrName == j {
            var i :| 0 <= i < |rest| && rest[i].attrName == j;
            assert r[i] == rest[i];
          }
        }
        assert r[|rest|].attrName == k;
        r
      else rest
  }

  /** The associated functions of a node: the call itself, the gradient
      node itself, or else one entry per function-valued attribute. Every
      entry is a function the node refers to, and none is listed twice. */
  ghost function GetAssociatedFunctions(node: Node, fld: FunctionLibrary): (r: seq<AssociatedFunctionInfo>)
    reads fld
    ensures forall i :: 0 <= i < |r| ==>
      || (r[i].FunctionCall? && fld.Contains(node.def.op) && r[i].funcName == node.def.op)
      || (r[i].SymbolicGradient? && !fld.Contains(node.def.op) && node.def.op == GradientOp)
      || (r[i].FunctionAttr? && r[i].attrName in node.def.attrs
          && node.def.attrs[r[i].attrName] == Func(NameAttrList(r[i].funcName, r[i].attrs)))
    ensures forall i, j :: 0 <= i < j < |r| ==> r[i] != r[j]
  {
    var op := node.def.op;
    if fld.Contains(op) then [FunctionCall(op, node.def.attrs)]
    else if op == GradientOp then [SymbolicGradient(op, node.def.attrs)]
    else FuncAttrEntries(node.def.attrs, node.def.attrs.Keys)
  }

  /** Some attribute names a function exactly when there are attribute
      entries. */
  lemma FuncAttrEntriesNonEmpty(attrs: map<string, AttrValue>)
    ensures HasFuncAttr(attrs) <==> |FuncAttrEntries(attrs, attrs.Keys)| > 0
  {
    var r := FuncAttrEntries(attrs, attrs.Keys);
    if HasFuncAttr(attrs) {
      var k :| k in attrs && attrs[k].Func?;
      assert exists i :: 0 <= i < |r| && r[i].attrName == k;
    }
    if |r| > 0 {
      assert attrs[r[0].attrName].Func?;
    }
  }

  /** A node has an associated function when its op is a library function,
      when it is a gradient node, or when some attribute names a function;
      that is, exactly when the list of associated functions of a graph node
      built from it is not empty. */
  predicate HasAssociatedFunction(node: NodeDef, fld: FunctionLibrary): (b: bool)
    reads fld
    ensures b <==> |GetAssociatedFunctions(Node(node, ""), fld)| > 0
  {
    FuncAttrEntriesNonEmpty(node.attrs);
    fld.Contains(node.op) || node.op == GradientOp || HasFuncAttr(node.attrs)
  }

  /** A call node yields exactly one entry, the call; a gradient node that
      is not a library function yields exactly one gradient entry. */
  lemma CallAndGradientSingle(node: Node, fld: FunctionLibrary)
    requires fld.Contains(node.def.op) || node.def.op == GradientOp
    ensures |GetAssociatedFunctions(node, fld)| == 1
    ensures fld.Contains(node.def.op) ==> GetAssociatedFunctions(node, fld)[0].FunctionCall?
    ensures !fld.Contains(node.def.op) ==> GetAssociatedFunctions(node, fld)[0].SymbolicGradient?
  {
  }

  /** Otherwise the entries are exactly the function-valued attributes, one
      per attribute, each carrying that attribute's function and its own
      attributes. */
  lemma FuncAttrEntriesExact(node: Node, fld: FunctionLibrary, k: string)
    requires !fld.Contains(node.def.op) && node.def.op != GradientOp
    ensures var r := GetAssociatedFunctions(node, fld);
      k in node.def.attrs && node.def.attrs[k].Func? ==>
      exists i :: 0 <= i < |r| && r[i] == FunctionAttr(node.def.attrs[k].func.name, node.def.attrs[k].func.attr, k)
    ensures var r := GetAssociatedFunctions(node, fld);
      forall i :: 0 <= i < |r| && r[i].attrName == k ==> k in node.def.attrs && node.def.attrs[k].Func?
  {
    var r := GetAssociatedFunctions(node, fld);
    if k in node.def.attrs && node.def.attrs[k].Func? {
      var i :| 0 <= i < |r| && r[i].attrName == k;
      assert r[i] == FunctionAttr(node.def.attrs[k].func.name, node.def.attrs[k].func.attr, k);
    }
  }

  /** The text `NodeDefBuilder::Input(name, index)` records: the bare name
      for index 0, "name:index" otherwise. */
  function InputText(name: string, index: nat): string
  {
    if index > 0 then name + ":" + IntToString(index) else name
  }

  /** How many data inputs a node has: its inputs other than "^x" control
      inputs. */
  function DataInputCount(inputs: seq<string>): nat
  {
    if inputs == [] then 0
    else DataInputCount(inputs[..|inputs| - 1])
         + (if inputs[|inputs| - 1] != [] && inputs[|inputs| - 1][0] == '^' then 0 else 1)
  }

  /** `inputs` names, for each input slot of `n`, the source of some edge
      into that slot, with the slot number as the output index. */
  ghost predicate CallInputs(nodes: map<nat, Node>, es: set<Edge>, n: nat, count: nat, inputs: seq<string>)
  {
    |inputs| == count && forall i :: 0 <= i < count ==> SlotInput(nodes, es, n, i, inputs[i])
  }

  /** `text` names the source of some edge into input slot `i` of `n`. */
  ghost predicate SlotInput(nodes: map<nat, Node>, es: set<Edge>, n: nat, i: nat, text: string)
  {
    exists e :: e in es && e.dst == n && e.dstInput == i && e.src in nodes
      && text == InputText(nodes[e.src].def.name, i)
  }

  /** Some input slot below `count` has no edge into it. */
  ghost predicate MissingSlot(es: set<Edge>, n: nat, slot: nat, count: nat)
  {
    slot < count && forall e :: e in es && e.dst == n ==> e.dstInput != slot
  }

  /** Looks up the source of each input slot of `n`, in slot order,
      stopping at the first slot without one. */
  method InputNames(g: Graph, n: nat, count: nat) returns (st: Status, inputs: seq<string>)
    requires g.Valid() && n in g.nodes
    ensures st.Ok? ==> CallInputs(g.nodes, g.edges, n, count, inputs)
    ensures st.Err? ==> st.reason.MissingInput? && MissingSlot(g.edges, n, st.reason.slot, count)
    ensures st.Err? ==> forall j :: 0 <= j < st.reason.slot ==> !MissingSlot(g.edges, n, j, count)
  {
    inputs := [];
    for i := 0 to count
      invariant CallInputs(g.nodes, g.edges, n, i, inputs)
    {
      if edge :| edge in g.edges && edge.dst == n && edge.dstInput == i {
        var inputs' := inputs + [InputText(g.nodes[edge.src].def.name, i)];
        assert SlotInput(g.nodes, g.edges, n, i, inputs'[i]);
        assert forall j :: 0 <= j < i ==> inputs'[j] == inputs[j];
        inputs := inputs';
      } else {
        forall j | 0 <= j < i ensures !MissingSlot(g.edges, n, j, count) {
          assert SlotInput(g.nodes, g.edges, n, j, inputs[j]);
        }
        return Err(MissingInput(i)), inputs;
      }
    }
    st := Ok;
  }

  /** The definition of the node that calls `newName` in place of `node`:
      same name and attributes, the given inputs, and the assigned device
      (the requested one when none is assigned). */
  function CallDef(node: Node, newName: string, inputs: seq<string>): NodeDef
  {
    NodeDef(node.def.name, newName, inputs, node.def.attrs,
            if node.assignedDevice == "" then node.def.device else node.assignedDevice)
  }

  /** The function-call rewrite: builds the calling node, adds it, copies
      every in-edge and out-edge of the old node onto it (without removing
      the old out-edges first) and removes the old node. */
  method RewriteFunctionCall(g: Graph, n: nat, newName: string) returns (st: Status)
    requires g.Valid() && n in g.nodes
    modifies g
    ensures g.Valid()
    ensures st.Err? ==> unchanged(g)
    ensures st.Err? ==>
      || (st.reason.MissingInput? && MissingSlot(old(g.edges), n, st.reason.slot, DataInputCount(old(g.nodes)[n].def.inputs)))
      || (st.reason == OpNotRegistered(newName) && newName !in g.registry)
    ensures st.Err? && st.reason.MissingInput? ==>
      forall j :: 0 <= j < st.reason.slot ==> !MissingSlot(old(g.edges), n, j, DataInputCount(old(g.nodes)[n].def.inputs))
    ensures st.Ok? ==>
      && newName in g.registry
      && (exists inputs :: CallInputs(old(g.nodes), old(g.edges), n, DataInputCount(old(g.nodes)[n].def.inputs), inputs)
            && g.nodes == (old(g.nodes) - {n})[old(g.nextId) := Node(CallDef(old(g.nodes)[n], newName, inputs), "")])
      && g.edges == Rewired(old(g.edges), n, old(g.nextId)) + LoopsMoved(old(g.edges), n, old(g.nextId))
  {
    var node := g.nodes[n];
    var inputs;
    st, inputs := InputNames(g, n, DataInputCount(node.def.inputs));
    if st.Err? {
      return;
    }
    var r := g.AddNode(CallDef(node, newName, inputs));
    if r.Failure? {
      return r.ToStatus();
    }
    var m := r.value;
    ghost var e0 := g.edges;
    var ins := g.InEdges(n);
    AddEdgesInto(g, ins, m);
    var outs := g.OutEdges(n);
    AddEdgesFrom(g, outs, m);
    g.RemoveNode(n);
    CopyEdgesThenRemove(e0, n, m, ins, outs);
  }

  /** The self-loops of `n`, moved onto `m`. */
  function LoopsMoved(es: set<Edge>, n: nat, m: nat): set<Edge>
  {
    set e | e in es && e.src == n && e.dst == n :: Edge(m, e.srcOutput, m, e.dstInput)
  }

  /** Copying the in-edges and then the out-edges, without removing the old
      out-edges first, ends in `ReplaceNode`'s edge set, except that a
      self-loop of the old node becomes a self-loop of the new one: its copy
      into the new node is itself an out-edge of the old node. */
  lemma CopyEdgesThenRemove(e0: set<Edge>, n: nat, m: nat, ins: set<Edge>, outs: set<Edge>)
    requires n != m
    requires ins == set e | e in e0 && e.dst == n
    requires outs == set e | e in e0 + ToDst(ins, m) && e.src == n
    ensures Away(e0 + ToDst(ins, m) + FromSrc(outs, m), n) == Rewired(e0, n, m) + LoopsMoved(e0, n, m)
  {
    var lhs := Away(e0 + ToDst(ins, m) + FromSrc(outs, m), n);
    forall e | e in Rewired(e0, n, m) + LoopsMoved(e0, n, m) ensures e in lhs {
      if e in LoopsMoved(e0, n, m) {
        var x :| x in e0 && x.src == n && x.dst == n && e == Edge(m, x.srcOutput, m, x.dstInput);
        assert x.(dst := m) in ToDst(ins, m);
        assert x.(dst := m) in outs;
        assert x.(dst := m).(src := m) == e;
      } else if e !in Away(e0, n) {
        if e in ToDst(IntoFrom(e0, n), m) {
          var d :| e.(dst := d) in IntoFrom(e0, n);
          assert e.(dst := d) in ins;
        } else {
          var s :| e.(src := s) in OutTo(e0, n);
          assert e.(src := s) in outs;
        }
      }
    }
    forall e | e in lhs ensures e in Rewired(e0, n, m) + LoopsMoved(e0, n, m) {
      if e in FromSrc(outs, m) && e !in e0 && e !in ToDst(ins, m) {
        var s :| e.(src := s) in outs;
        if e.(src := s) in ToDst(ins, m) {
          var d :| e.(src := s).(dst := d) in ins;
          assert e.(src := s).(dst := d) in e0;
          assert Edge(s, e.srcOutput, d, e.dstInput) in e0;
          if d == n {
            assert e == Edge(m, e.srcOutput, m, e.dstInput);
          }
        } else {
          assert e.(src := s) in OutTo(e0, n);
        }
      }
    }
  }

  /** Without self-loops on the old node, the function-call rewrite and
      `ReplaceNode` leave the same edges. */
  lemma NoLoopsSameRewiring(es: set<Edge>, n: nat, m: nat)
    requires forall e :: e in es ==> !(e.src == n && e.dst == n)
    ensures Rewired(es, n, m) + LoopsMoved(es, n, m) == Rewired(es, n, m)
  {
    assert LoopsMoved(es, n, m) == {};
  }

  /** The gradient rewrite: registers `newName` as the gradient of the
      function named by the node's "f" attribute, adding an entry when there
      is none and replacing one that differs. */
  method RewriteGradient(g: Graph, n: nat, fld: FunctionLibrary, newName: string) returns (st: Status)
    requires n in g.nodes
    modifies fld
    ensures var attrs := g.nodes[n].def.attrs;
      st.Ok? <==> FuncAttr in attrs && attrs[FuncAttr].Func?
    ensures var attrs := g.nodes[n].def.attrs;
      && (FuncAttr !in attrs ==> st == Err(MissingFuncAttr(FuncAttr)))
      && (FuncAttr in attrs && !attrs[FuncAttr].Func? ==> st == Err(WrongAttrType(FuncAttr)))
    ensures fld.functions == old(fld.functions)
    ensures st.Err? ==> fld.gradients == old(fld.gradients)
    ensures st.Ok? ==>
      var f := g.nodes[n].def.attrs[FuncAttr].func.name;
      && fld.FindGradient(f) == newName
      && (forall h :: h != f ==> fld.FindGradient(h) == old(fld.FindGradient(h)))
      && (old(fld.FindGradient(f)) != "" && old(fld.FindGradient(f)) == newName ==> fld.gradients == old(fld.gradients))
  {
    var attrs := g.nodes[n].def.attrs;
    if FuncAttr !in attrs {
      return Err(MissingFuncAttr(FuncAttr));
    }
    if !attrs[FuncAttr].Func? {
      return Err(WrongAttrType(FuncAttr));
    }
    var f := attrs[FuncAttr].func.name;
    var original := fld.FindGradient(f);
    if original == "" {
      st := fld.AddGradientDef(f, newName);
    } else if original != newName {
      st := fld.ReplaceGradient(f, newName);
    } else {
      st := Ok;
    }
  }

  /** The function-attribute rewrite: renames the function attribute
      `attrName` of the node to `newName`, keeping that function's own
      attributes. */
  method RewriteFunctionAttr(g: Graph, n: nat, attrName: string, newName: string) returns (st: Status)
    requires g.Valid() && n in g.nodes
    modifies g
    ensures g.Valid() && g.edges == old(g.edges) && g.nextId == old(g.nextId)
    ensures var attrs := old(g.nodes)[n].def.attrs;
      && (attrName !in attrs ==> st == Err(MissingFuncAttr(attrName)) && g.nodes == old(g.nodes))
      && (attrName in attrs && !attrs[attrName].Func? ==> st == Err(WrongAttrType(attrName)) && g.nodes == old(g.nodes))
      && (attrName in attrs && attrs[attrName].Func? ==>
            st == Ok
            && g.nodes == old(g.nodes)[n := old(g.nodes)[n].(def := old(g.nodes)[n].def.(attrs :=
                 attrs[attrName := Func(NameAttrList(newName, attrs[attrName].func.attr))]))])
  {
    var node := g.nodes[n];
    if attrName !in node.def.attrs {
      return Err(MissingFuncAttr(attrName));
    }
    var v := node.def.attrs[attrName];
    if !v.Func? {
      return Err(WrongAttrType(attrName));
    }
    var attrs := node.def.attrs[attrName := Func(NameAttrList(newName, v.func.attr))];
    g.SetNode(n, node.(def := node.def.(attrs := attrs)));
    st := Ok;
  }

  /** `RewriteAssociatedFunction`: dispatches on the kind of association. */
  method RewriteAssociatedFunction(g: Graph, n: nat, fld: FunctionLibrary, info: AssociatedFunctionInfo,
                                   newName: string) returns (st: Status)
    requires g.Valid() && n in g.nodes
    modifies g, fld
    ensures g.Valid()
    ensures !info.FunctionCall? ==> g.nextId == old(g.nextId) && g.edges == old(g.edges)
    ensures !info.SymbolicGradient? ==> fld.functions == old(fld.functions) && fld.gradients == old(fld.gradients)
    ensures info.SymbolicGradient? ==> g.nodes == old(g.nodes)
    ensures info.SymbolicGradient? && st.Ok? ==>
      var attrs := old(g.nodes)[n].def.attrs;
      FuncAttr in attrs && attrs[FuncAttr].Func? && fld.FindGradient(attrs[FuncAttr].func.name) == newName
    ensures info.FunctionAttr? && st.Ok? ==>
      var attrs := old(g.nodes)[n].def.attrs;
      && info.attrName in attrs && attrs[info.attrName].Func?
      && n in g.nodes && info.attrName in g.nodes[n].def.attrs
      && g.nodes[n].def.attrs[info.attrName] == Func(NameAttrList(newName, attrs[info.attrName].func.attr))
    ensures info.FunctionCall? && st.Ok? ==>
      && n !in g.nodes && old(g.nextId) in g.nodes && g.nodes[old(g.nextId)].def.op == newName
      && g.edges == Rewired(old(g.edges), n, old(g.nextId)) + LoopsMoved(old(g.edges), n, old(g.nextId))
  {
    match info {
      case FunctionCall(_, _) =>
        st := RewriteFunctionCall(g, n, newName);
      case SymbolicGradient(_, _) =>
        st := RewriteGradient(g, n, fld, newName);
      case FunctionAttr(_, _, attrName) =>
        st := RewriteFunctionAttr(g, n, attrName, newName);
    }
  }
}
