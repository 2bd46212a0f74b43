/** Text forms of tensor references: `TensorIdToString` for the configuration's
    ids, and the graph's own parser and printer of input strings. */
module TensorIds {
  import opened Text
  import opened GraphDefs

  /** The output slot that marks a control input. */
  const ControlSlot: int := -1

  /** "name:index" for a configured tensor id: the node name, a colon, and
      the index in decimal, which reads back as the index. */
  function TensorIdToString(id: TensorId): (s: string)
    ensures |s| > |id.nodeName| + 1 && s[..|id.nodeName|] == id.nodeName && s[|id.nodeName|] == ':'
    ensures id.outputIndex >= 0 ==>
      AllDigits(s[|id.nodeName| + 1..]) && DigitsToNat(s[|id.nodeName| + 1..]) == id.outputIndex
    ensures id.outputIndex < 0 ==> s[|id.nodeName| + 1] == '-'
  {
    var s := id.nodeName + ":" + IntToString(id.outputIndex);
    assert s[|id.nodeName| + 1..] == IntToString(id.outputIndex);
    if id.outputIndex >= 0 then DigitsRoundTrip(id.outputIndex); s else s
  }

  /** Moves left from position `p` over decimal digits, never past position 0. */
  function ScanBack(s: string, p: nat): (r: nat)
    requires p < |s|
    ensures r <= p
    ensures forall k :: r < k <= p ==> IsDigit(s[k])
    ensures r == 0 || !IsDigit(s[r])
  {
    if p > 0 && IsDigit(s[p]) then ScanBack(s, p - 1) else p
  }

  /** The graph's parser of input strings: "name:digits" gives that output,
      "^name" a control input, anything else output 0 of the whole string. */
  function ParseTensorName(s: string): (id: TensorId)
    ensures id.outputIndex >= ControlSlot
  {
    if s == [] then TensorId(s, 0)
    else
      var p := ScanBack(s, |s| - 1);
      if p > 0 && s[p] == ':' && p < |s| - 1 then
        var digits := s[p + 1..];
        assert AllDigits(digits) by {
          forall k | 0 <= k < |digits| ensures IsDigit(digits[k]) {
            assert digits[k] == s[p + 1 + k];
          }
        }
        TensorId(s[..p], DigitsToNat(digits))
      else if s[0] == '^' then TensorId(s[1..], ControlSlot)
      else TensorId(s, 0)
  }

  /** The graph's printer of a parsed id: "^name" or "name:index". */
  function ParsedToString(id: TensorId): string
  {
    if id.outputIndex == ControlSlot then "^" + id.nodeName
    else id.nodeName + ":" + IntToString(id.outputIndex)
  }

  /** The canonical form of an input string, as compared against feed keys. */
  function Canonical(s: string): string
  {
    ParsedToString(ParseTensorName(s))
  }

  predicate ValidTensorId(id: TensorId)
  {
    id.nodeName != [] && id.outputIndex >= 0
  }

  lemma {:induction false} ScanBackOverDigits(s: string, colon: nat, p: nat)
    requires 0 < colon < p < |s| && s[colon] == ':'
    requires forall k :: colon < k <= p ==> IsDigit(s[k])
    ensures ScanBack(s, p) == colon
    decreases p
  {
    if p - 1 > colon {
      ScanBackOverDigits(s, colon, p - 1);
    }
  }

  /** Parsing the text form of a valid id gives the id back. */
  lemma ParseRoundTrip(id: TensorId)
    requires ValidTensorId(id)
    ensures ParseTensorName(TensorIdToString(id)) == id
  {
    var s := TensorIdToString(id);
    var n := |id.nodeName|;
    var digits := NatToDigits(id.outputIndex);
    assert s[n + 1..] == digits;
    forall k | n < k < |s| ensures IsDigit(s[k]) {
      assert s[k] == digits[k - n - 1];
    }
    ScanBackOverDigits(s, n, |s| - 1);
    DigitsRoundTrip(id.outputIndex);
  }

  /** Distinct valid ids have distinct text forms. */
  lemma TensorIdToStringInjective(a: TensorId, b: TensorId)
    requires ValidTensorId(a) && ValidTensorId(b)
    requires TensorIdToString(a) == TensorIdToString(b)
    ensures a == b
  {
    ParseRoundTrip(a);
    ParseRoundTrip(b);
  }

  /** The canonical form of a valid id's text form is that text form, so an
      input written as "name:index" is recognised as the fed tensor. */
  lemma CanonicalOfTensorIdString(id: TensorId)
    requires ValidTensorId(id)
    ensures Canonical(TensorIdToString(id)) == TensorIdToString(id)
  {
    ParseRoundTrip(id);
  }

  /** A bare node name without ':' that is not a control input parses as
      output 0 of that node, so "x" and "x:0" have the same canonical form. */
  lemma BareNameIsOutputZero(name: string)
    requires name != [] && name[0] != '^'
    requires forall k :: 0 <= k < |name| ==> name[k] != ':'
    ensures ParseTensorName(name) == TensorId(name, 0)
    ensures Canonical(name) == TensorIdToString(TensorId(name, 0))
  {
  }

  /** A control input "^x" is printed back unchanged. */
  lemma ControlInputCanonical(name: string)
    requires forall k :: 0 <= k < |name| ==> name[k] != ':'
    ensures ParseTensorName("^" + name) == TensorId(name, ControlSlot)
    ensures Canonical("^" + name) == "^" + name
  {
    var s := "^" + name;
    var p := ScanBack(s, |s| - 1);
    assert s[p] != ':' by {
      if p > 0 { assert s[p] == name[p - 1]; }
    }
    assert s[1..] == name;
  }
}
