/** `AddDtypeToKernalDefConstraint`: widens a kernel's attribute constraints
    in place by one allowed type. */
module KernelDefs {
  import opened GraphDefs

  /** A constraint of a kernel definition: the attribute it constrains and
      the types that attribute may take, in order. */
  datatype AttrConstraint = AttrConstraint(name: string, allowed: seq<DataType>)

  /** The constraints after appending `dtype` to the allowed types of each
      constraint on attribute `name`. */
  function Widened(cs: seq<AttrConstraint>, name: string, dtype: DataType): (r: seq<AttrConstraint>)
  {
    seq(|cs|, i requires 0 <= i < |cs| =>
      if cs[i].name == name then cs[i].(allowed := cs[i].allowed + [dtype]) else cs[i])
  }

  /** Appends `dtype` to every constraint on attribute `name`, visiting the
      constraints in order. */
  method AddDtypeToKernalDefConstraint(name: string, dtype: DataType, constraints: array<AttrConstraint>)
    modifies constraints
    ensures constraints[..] == Widened(old(constraints[..]), name, dtype)
  {
    for i := 0 to constraints.Length
      invariant constraints[..i] == Widened(old(constraints[..i]), name, dtype)
      invariant constraints[i..] == old(constraints[i..])
    {
      if constraints[i].name == name {
        constraints[i] := constraints[i].(allowed := constraints[i].allowed + [dtype]);
      }
    }
  }

  /** Widening keeps the number and the order of the constraints and the
      attribute each one constrains; a constraint on `name` gains exactly
      `dtype` at the end of its list, and every other constraint is
      unchanged. */
  lemma WidenedSpec(cs: seq<AttrConstraint>, name: string, dtype: DataType, i: nat)
    requires i < |cs|
    ensures |Widened(cs, name, dtype)| == |cs|
    ensures Widened(cs, name, dtype)[i].name == cs[i].name
    ensures cs[i].name == name ==> Widened(cs, name, dtype)[i].allowed == cs[i].allowed + [dtype]
    ensures cs[i].name != name ==> Widened(cs, name, dtype)[i] == cs[i]
  {
  }

  /** The allowed list is not a set: widening twice lists `dtype` twice more. */
  lemma WideningCounts(cs: seq<AttrConstraint>, name: string, dtype: DataType, i: nat)
    requires i < |cs| && cs[i].name == name
    ensures multiset(Widened(Widened(cs, name, dtype), name, dtype)[i].allowed)[dtype]
            == multiset(cs[i].allowed)[dtype] + 2
  {
    var once := Widened(cs, name, dtype);
    assert once[i].allowed == cs[i].allowed + [dtype];
    assert Widened(once, name, dtype)[i].allowed == cs[i].allowed + [dtype] + [dtype];
  }
}
