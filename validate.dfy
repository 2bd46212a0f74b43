/** Validation of a feed/fetch configuration before any graph is touched
    (`ValidateConfig` and its helpers). */
module Validation {
  import opened Errors
  import opened GraphDefs
  import TensorIds
  import opened Text

  /** The most dimensions a shape may have. */
  const MaxDimensions := 254
  /** The most elements a shape may describe: the largest 64-bit signed
      integer. */
  const MaxElements := 0x7fff_ffff_ffff_ffff

  /** The element count of the first `k` dimensions, multiplied up from 1. */
  function ElementCount(dims: seq<int>, k: nat): int
    requires k <= |dims|
  {
    if k == 0 then 1 else ElementCount(dims, k - 1) * dims[k - 1]
  }

  /** `TensorShape::IsValidShape`, the check for a fully defined shape: at
      most `MaxDimensions` dimensions, each a size of at least 0, and the
      element count, multiplied up one dimension at a time, never exceeds
      `MaxElements`. The unknown-rank flag plays no part. */
  predicate IsValidShape(s: Shape)
  {
    ValidDims(s.dims)
  }

  predicate ValidDims(dims: seq<int>)
  {
    && |dims| <= MaxDimensions
    && forall k :: 0 <= k < |dims| ==> dims[k] >= 0 && ElementCount(dims, k + 1) <= MaxElements
  }

  lemma {:induction false} ElementCountNonNegative(dims: seq<int>, k: nat)
    requires k <= |dims|
    requires forall j :: 0 <= j < k ==> dims[j] >= 0
    ensures ElementCount(dims, k) >= 0
  {
    if k > 0 {
      ElementCountNonNegative(dims, k - 1);
    }
  }

  /** A valid shape has no unknown dimension and describes between 0 and
      `MaxElements` elements. */
  lemma ValidShapeElementCount(s: Shape)
    requires IsValidShape(s)
    ensures forall k :: 0 <= k < |s.dims| ==> s.dims[k] != -1
    ensures 0 <= ElementCount(s.dims, |s.dims|) <= MaxElements
  {
    ElementCountNonNegative(s.dims, |s.dims|);
  }

  /** Partial shapes are not accepted: an unknown dimension is rejected and
      an unknown-rank flag changes nothing. The count is checked as it is
      multiplied up, so a later zero does not excuse an earlier overflow. */
  lemma ShapeCheckExamples(s: Shape)
    ensures !IsValidShape(Shape([-1], false))
    ensures IsValidShape(Shape([2], true))
    ensures IsValidShape(s) <==> IsValidShape(s.(unknownRank := !s.unknownRank))
    ensures !IsValidShape(Shape([0x1_0000_0000, 0x1_0000_0000, 0], false))
  {
    assert Shape([-1], false).dims[0] == -1;
    assert s.(unknownRank := !s.unknownRank).dims == s.dims;
    assert ElementCount([0x1_0000_0000, 0x1_0000_0000, 0], 2) == 0x1_0000_0000 * 0x1_0000_0000;
  }

  function ValidateTensorId(id: TensorId): (st: Status)
    ensures st.Ok? <==> TensorIds.ValidTensorId(id)
    ensures st.Err? ==> st.Code() == InvalidArgument
    ensures id.nodeName == [] ==> st == Err(EmptyNodeName)
  {
    if id.nodeName == [] then Err(EmptyNodeName)
    else if id.outputIndex < 0 then Err(NegativeOutputIndex(id.nodeName))
    else Ok
  }

  /** What validation looks at in a feed or a fetch; a fetch has no shape. */
  datatype Entry = Entry(id: TensorId, name: string, shapeOk: bool)

  function FeedEntries(feeds: seq<Feed>): (es: seq<Entry>)
    ensures |es| == |feeds|
    ensures forall i :: 0 <= i < |feeds| ==>
      es[i] == Entry(feeds[i].id, feeds[i].name, IsValidShape(feeds[i].shape))
  {
    if feeds == [] then []
    else
      var last := feeds[|feeds| - 1];
      FeedEntries(feeds[..|feeds| - 1]) + [Entry(last.id, last.name, IsValidShape(last.shape))]
  }

  function FetchEntries(fetches: seq<Fetch>): (es: seq<Entry>)
    ensures |es| == |fetches|
    ensures forall i :: 0 <= i < |fetches| ==> es[i] == Entry(fetches[i].id, fetches[i].name, true)
  {
    if fetches == [] then []
    else
      var last := fetches[|fetches| - 1];
      FetchEntries(fetches[..|fetches| - 1]) + [Entry(last.id, last.name, true)]
  }

  /** The non-empty names of the first `n` entries. */
  function NamesBefore(es: seq<Entry>, n: nat): set<string>
    requires n <= |es|
  {
    set k | 0 <= k < n && es[k].name != [] :: es[k].name
  }

  /** Some name `x` comes with `x_data` (their generated symbols would clash). */
  predicate HasConflict(names: set<string>)
  {
    exists x :: x in names && x + "_data" in names
  }

  /** The names of `names` that come with their `_data` twin. */
  ghost function Conflicts(names: set<string>): set<string>
  {
    set x | x in names && x + "_data" in names
  }

  /** The conflicting name reported: the first in the string order in which
      an ordered set of names is scanned. */
  ghost function LeastConflict(names: set<string>): (x: string)
    requires HasConflict(names)
    ensures IsLeast(x, Conflicts(names))
  {
    ConflictsHaveLeast(names);
    var x :| IsLeast(x, Conflicts(names));
    x
  }

  lemma ConflictsHaveLeast(names: set<string>)
    requires HasConflict(names)
    ensures exists x :: IsLeast(x, Conflicts(names))
  {
    var x :| x in names && x + "_data" in names;
    assert x in Conflicts(names);
    var least := LeastExists(Conflicts(names));
  }

  /** The first failure of entry `i`, given the names of the entries before it. */
  function EntryFailure(kind: string, es: seq<Entry>, i: nat): Option<Reason>
    requires i < |es|
  {
    var e := es[i];
    var idStatus := ValidateTensorId(e.id);
    if idStatus.Err? then Some(idStatus.reason)
    else if !e.shapeOk then Some(InvalidShape)
    else if e.name != [] && e.name in NamesBefore(es, i) then Some(DuplicateName(kind, e.name))
    else None
  }

  /** The failure of the first failing entry at or after `i`, in list order. */
  function FirstFailure(kind: string, es: seq<Entry>, i: nat): Option<Reason>
    requires i <= |es|
    decreases |es| - i
  {
    if i == |es| then None
    else if EntryFailure(kind, es, i).Some? then EntryFailure(kind, es, i)
    else FirstFailure(kind, es, i + 1)
  }

  /** The status of one list: its first failing entry, else a name conflict. */
  ghost function ListStatus(kind: string, es: seq<Entry>): Status
  {
    match FirstFailure(kind, es, 0)
    case Some(r) => Err(r)
    case None =>
      var names := NamesBefore(es, |es|);
      if HasConflict(names) then Err(ConflictingName(kind, LeastConflict(names))) else Ok
  }

  /** The status `ValidateConfig` reports: feeds first, then fetches, then the
      requirement that something is fetched. */
  ghost function ConfigStatus(c: Config): Status
  {
    var feeds := ListStatus("feed", FeedEntries(c.feeds));
    if feeds.Err? then feeds
    else
      var fetches := ListStatus("fetch", FetchEntries(c.fetches));
      if fetches.Err? then fetches
      else if c.fetches == [] then Err(NoFetches)
      else Ok
  }

  /** Inserts a non-empty name into the set of names seen so far, failing on
      a repeat; empty names are never recorded. */
  method CheckNameDuplicates(kind: string, name: string, names: set<string>)
    returns (st: Status, names': set<string>)
    ensures st.Ok? <==> name == [] || name !in names
    ensures st.Err? ==> st.reason == DuplicateName(kind, name)
    ensures names' == if name == [] then names else names + {name}
  {
    names' := names;
    st := Ok;
    if name != [] {
      if name in names {
        st := Err(DuplicateName(kind, name));
      }
      names' := names + {name};
    }
  }

  /** Scans an ordered set of names, in increasing order, for a pair `x`,
      `x_data`, and reports the first `x` found. */
  method CheckFeedFetchNameConflicts(kind: string, names: set<string>) returns (st: Status)
    ensures st.Ok? <==> !HasConflict(names)
    ensures st.Err? ==> st.reason.ConflictingName? && st.reason.kind == kind
    ensures st.Err? ==> IsLeast(st.reason.name, Conflicts(names))
  {
    var rest := names;
    while rest != {}
      invariant rest <= names
      invariant forall x :: x in names - rest ==> x + "_data" !in names
      invariant forall x, y :: x in names - rest && y in rest ==> LexLess(x, y)
      decreases rest
    {
      ghost var least := LeastExists(rest);
      var x :| IsLeast(x, rest);
      assert IsLeast(x, rest);
      assert x in rest;
      if x + "_data" in names {
        assert x in Conflicts(names);
        forall y | y in Conflicts(names) ensures !LexLess(y, x) {
          if y !in rest {
            LexLessAsymmetric(y, x);
          }
        }
        return Err(ConflictingName(kind, x));
      }
      forall y, z | y in names - (rest - {x}) && z in rest - {x} ensures LexLess(y, z) {
        if y == x {
          LexLessTotal(x, z);
        }
      }
      rest := rest - {x};
    }
    return Ok;
  }

  /** Checks one list entry by entry, then for conflicts; `kind` names the list. */
  method ValidateEntries(kind: string, es: seq<Entry>) returns (st: Status)
    ensures st == ListStatus(kind, es)
  {
    var names: set<string> := {};
    for i := 0 to |es|
      invariant names == NamesBefore(es, i)
      invariant FirstFailure(kind, es, 0) == FirstFailure(kind, es, i)
    {
      st := ValidateTensorId(es[i].id);
      if st.Err? {
        return;
      }
      if !es[i].shapeOk {
        return Err(InvalidShape);
      }
      st, names := CheckNameDuplicates(kind, es[i].name, names);
      if st.Err? {
        return;
      }
      assert NamesBefore(es, i + 1) == names;
    }
    st := CheckFeedFetchNameConflicts(kind, names);
    if st.Err? {
      LeastUnique(st.reason.name, LeastConflict(names), Conflicts(names));
    }
  }

  method ValidateConfig(config: Config) returns (st: Status)
    ensures st == ConfigStatus(config)
  {
    st := ValidateEntries("feed", FeedEntries(config.feeds));
    if st.Err? {
      return;
    }
    st := ValidateEntries("fetch", FetchEntries(config.fetches));
    if st.Err? {
      return;
    }
    if config.fetches == [] {
      return Err(NoFetches);
    }
    return Ok;
  }

  // ---------------------------------------------------------------------
  // The declarative reading of a valid configuration.

  /** Every id is well formed, every shape valid, and no non-empty name
      repeats; empty names may repeat. */
  ghost predicate WellFormedEntries(es: seq<Entry>)
  {
    && (forall i :: 0 <= i < |es| ==> TensorIds.ValidTensorId(es[i].id) && es[i].shapeOk)
    && (forall i, j :: 0 <= i < j < |es| && es[i].name != [] ==> es[i].name != es[j].name)
    && !HasConflict(NamesBefore(es, |es|))
  }

  /** The configuration invariant: feeds and fetches each well formed, names
      compared only within their own list, and at least one fetch. */
  ghost predicate WellFormedConfig(c: Config)
  {
    && WellFormedEntries(FeedEntries(c.feeds))
    && WellFormedEntries(FetchEntries(c.fetches))
    && c.fetches != []
  }

  lemma {:induction false} FirstFailureNone(kind: string, es: seq<Entry>, i: nat)
    requires i <= |es|
    ensures FirstFailure(kind, es, i) == None <==>
      forall k :: i <= k < |es| ==> EntryFailure(kind, es, k) == None
    decreases |es| - i
  {
    if i < |es| {
      FirstFailureNone(kind, es, i + 1);
    }
  }

  lemma EntriesPassIff(kind: string, es: seq<Entry>)
    ensures (forall k :: 0 <= k < |es| ==> EntryFailure(kind, es, k) == None) <==>
      && (forall i :: 0 <= i < |es| ==> TensorIds.ValidTensorId(es[i].id) && es[i].shapeOk)
      && (forall i, j :: 0 <= i < j < |es| && es[i].name != [] ==> es[i].name != es[j].name)
  {
    var pass := forall k :: 0 <= k < |es| ==> EntryFailure(kind, es, k) == None;
    var valid := forall i :: 0 <= i < |es| ==> TensorIds.ValidTensorId(es[i].id) && es[i].shapeOk;
    var distinct := forall i, j :: 0 <= i < j < |es| && es[i].name != [] ==> es[i].name != es[j].name;
    if pass {
      forall i | 0 <= i < |es| ensures TensorIds.ValidTensorId(es[i].id) && es[i].shapeOk {
        assert EntryFailure(kind, es, i) == None;
      }
      forall i, j | 0 <= i < j < |es| && es[i].name != [] ensures es[i].name != es[j].name {
        assert EntryFailure(kind, es, j) == None;
        assert es[i].name in NamesBefore(es, j);
      }
    }
    if valid && distinct {
      forall k | 0 <= k < |es| ensures EntryFailure(kind, es, k) == None {
        assert ValidateTensorId(es[k].id).Ok?;
      }
    }
  }

  /** A list passes exactly when it is well formed. */
  lemma ListStatusOkIff(kind: string, es: seq<Entry>)
    ensures ListStatus(kind, es) == Ok <==> WellFormedEntries(es)
  {
    FirstFailureNone(kind, es, 0);
    EntriesPassIff(kind, es);
  }

  /** `ValidateConfig` succeeds exactly on well-formed configurations. */
  lemma ValidateConfigOkIff(c: Config)
    ensures ConfigStatus(c) == Ok <==> WellFormedConfig(c)
  {
    ListStatusOkIff("feed", FeedEntries(c.feeds));
    ListStatusOkIff("fetch", FetchEntries(c.fetches));
  }

  /** Every failure is an invalid-argument error. */
  lemma {:induction false} FailuresAreInvalidArgument(c: Config)
    requires ConfigStatus(c).Err?
    ensures ConfigStatus(c).Code() == InvalidArgument
  {
    FirstFailureIsEntryFailure("feed", FeedEntries(c.feeds), 0);
    FirstFailureIsEntryFailure("fetch", FetchEntries(c.fetches), 0);
  }

  lemma {:induction false} FirstFailureIsEntryFailure(kind: string, es: seq<Entry>, i: nat)
    requires i <= |es|
    ensures FirstFailure(kind, es, i).Some? ==>
      exists k :: i <= k < |es| && FirstFailure(kind, es, i) == EntryFailure(kind, es, k)
    ensures FirstFailure(kind, es, i).Some? ==> CodeOf(FirstFailure(kind, es, i).value) == InvalidArgument
    decreases |es| - i
  {
    if i < |es| && EntryFailure(kind, es, i).None? {
      FirstFailureIsEntryFailure(kind, es, i + 1);
    }
  }

  /** An empty fetch list always fails, whatever the feeds. */
  lemma NoFetchesAlwaysFails(feeds: seq<Feed>)
    ensures ConfigStatus(Config(feeds, [])).Err?
  {
    ValidateConfigOkIff(Config(feeds, []));
  }

  /** Feed names are never compared with fetch names: a feed and a fetch may
      share a name, and `x` may name a feed while `x_data` names a fetch. */
  lemma CrossListNamesNotCompared(x: string)
    requires x != []
    ensures ConfigStatus(Config(
      [Feed(TensorId("a", 0), Shape([], false), x, DtInvalid)],
      [Fetch(TensorId("b", 0), x)])) == Ok
    ensures ConfigStatus(Config(
      [Feed(TensorId("a", 0), Shape([], false), x, DtInvalid)],
      [Fetch(TensorId("b", 0), x + "_data")])) == Ok
  {
    var feeds := [Feed(TensorId("a", 0), Shape([], false), x, DtInvalid)];
    assert NamesBefore(FeedEntries(feeds), 1) == {x};
    assert x + "_data" != x;
    ValidateConfigOkIff(Config(feeds, [Fetch(TensorId("b", 0), x)]));
    assert NamesBefore(FetchEntries([Fetch(TensorId("b", 0), x)]), 1) == {x};
    var y := x + "_data";
    ValidateConfigOkIff(Config(feeds, [Fetch(TensorId("b", 0), y)]));
    assert NamesBefore(FetchEntries([Fetch(TensorId("b", 0), y)]), 1) == {y};
    assert y + "_data" != y;
  }
}
