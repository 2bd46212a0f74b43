/** `CachedFunctionHandles`: a cache of instantiated function handles keyed
    by the canonical name of (function, attributes), over a function runtime
    that hands out and releases handles. */
module FunctionHandles {
  import opened Errors
  import opened GraphDefs

  type Handle = nat

  /** The function runtime: instantiating a library function hands out a
      fresh handle; releasing a handle it does not hold fails. */
  class FunctionRuntime {
    var live: set<Handle>
    var next: Handle
    /** The functions that can be instantiated. */
    const library: set<string>

    ghost predicate Valid()
      reads this
    {
      forall h :: h in live ==> h < next
    }

    constructor (library: set<string>)
      ensures Valid() && live == {} && next == 0 && this.library == library
    {
      live, next := {}, 0;
      this.library := library;
    }

    method Instantiate(name: string, attrs: map<string, AttrValue>) returns (st: Status, h: Handle)
      requires Valid()
      modifies this
      ensures Valid()
      ensures name !in library ==> st == Err(InstantiateFailed(name)) && unchanged(this)
      ensures name in library ==>
        st == Ok && h == old(next) && live == old(live) + {h} && next == old(next) + 1
    {
      if name !in library {
        return Err(InstantiateFailed(name)), 0;
      }
      h := next;
      live, next := live + {h}, next + 1;
      st := Ok;
    }

    method ReleaseHandle(h: Handle) returns (st: Status)
      requires Valid()
      modifies this
      ensures Valid() && next == old(next)
      ensures h in old(live) ==> st == Ok && live == old(live) - {h}
      ensures h !in old(live) ==> st == Err(UnknownHandle(h)) && live == old(live)
    {
      if h !in live {
        return Err(UnknownHandle(h));
      }
      live := live - {h};
      st := Ok;
    }
  }

  /** The handles stored under `keys`. */
  function Stored(m: map<string, Handle>, keys: set<string>): set<Handle>
    requires keys <= m.Keys
  {
    set k | k in keys :: m[k]
  }

  /** No two keys share a handle. */
  predicate Injective(m: map<string, Handle>)
  {
    forall a, b :: a in m && b in m && a != b ==> m[a] != m[b]
  }

  class CachedFunctionHandles {
    var handles: map<string, Handle>
    const runtime: FunctionRuntime
    /** The canonical name of a function instantiated with attributes. */
    const canonicalize: (string, map<string, AttrValue>) -> string

    ghost predicate Valid()
      reads this, runtime
    {
      && runtime.Valid()
      && (forall k :: k in handles ==> handles[k] < runtime.next)
      && Injective(handles)
    }

    constructor (runtime: FunctionRuntime, canonicalize: (string, map<string, AttrValue>) -> string)
      requires runtime.Valid()
      ensures Valid() && handles == map[]
      ensures this.runtime == runtime && this.canonicalize == canonicalize
    {
      handles := map[];
      this.runtime, this.canonicalize := runtime, canonicalize;
    }

    /** Returns the cached handle when the canonical name is known, without
        touching the runtime; otherwise instantiates the function and caches
        the new handle. A failed instantiation caches nothing. */
    method GetOrInstantiate(name: string, attrs: map<string, AttrValue>) returns (st: Status, h: Handle)
      requires Valid()
      modifies this, runtime
      ensures Valid()
      ensures var key := canonicalize(name, attrs);
        key in old(handles) ==>
          st == Ok && h == old(handles)[key] && handles == old(handles) && unchanged(runtime)
      ensures var key := canonicalize(name, attrs);
        key !in old(handles) && name !in runtime.library ==>
          st == Err(InstantiateFailed(name)) && handles == old(handles) && unchanged(runtime)
      ensures var key := canonicalize(name, attrs);
        key !in old(handles) && name in runtime.library ==>
          && st == Ok && h == old(runtime.next) && handles == old(handles)[key := h]
          && runtime.live == old(runtime.live) + {h}
    {
      var key := canonicalize(name, attrs);
      if key in handles {
        return Ok, handles[key];
      }
      st, h := runtime.Instantiate(name, attrs);
      if st.Err? {
        return;
      }
      handles := handles[key := h];
    }

    /** Releases every cached handle, in no particular order, keeping the
        first failure, and empties the cache even when a release fails. */
    method ReleaseAllHandles() returns (st: Status)
      requires Valid()
      modifies this, runtime
      ensures Valid()
      ensures handles == map[]
      ensures runtime.live == old(runtime.live) - old(handles).Values
      ensures st.Ok? <==> old(handles).Values <= old(runtime.live)
      ensures st.Err? ==> st.reason.UnknownHandle? && st.reason.handle in old(handles).Values - old(runtime.live)
    {
      st := ReleaseEach(runtime, handles);
      handles := map[];
    }
  }

  /** Releases the handle of every key of `m`, in no particular order,
      keeping the first failure. */
  method ReleaseEach(runtime: FunctionRuntime, m: map<string, Handle>) returns (st: Status)
    requires runtime.Valid() && Injective(m)
    modifies runtime
    ensures runtime.Valid() && runtime.next == old(runtime.next)
    ensures runtime.live == old(runtime.live) - m.Values
    ensures st.Ok? <==> m.Values <= old(runtime.live)
    ensures st.Err? ==> st.reason.UnknownHandle? && st.reason.handle in m.Values - old(runtime.live)
  {
    st := Ok;
    ghost var live0 := runtime.live;
    ghost var done: set<string> := {};
    StoredNone(m);
    var left := m.Keys;
    while left != {}
      invariant runtime.Valid() && runtime.next == old(runtime.next)
      invariant done <= m.Keys && left == m.Keys - done
      invariant runtime.live == live0 - Stored(m, done)
      invariant st.Ok? <==> Stored(m, done) <= live0
      invariant st.Err? ==> st.reason.UnknownHandle? && st.reason.handle in Stored(m, done) - live0
      decreases |left|
    {
      var k :| k in left;
      StoredAdd(m, done, k);
      ghost var live1 := runtime.live;
      var s := runtime.ReleaseHandle(m[k]);
      ReleaseStep(live0, Stored(m, done), m[k], live1, runtime.live);
      if st.Ok? {
        st := s;
      }
      DoneStep(m.Keys, done, left, k);
      left, done := left - {k}, done + {k};
    }
    StoredAll(m);
  }

  /** Releasing one more handle `h`, never released before. */
  lemma ReleaseStep(live0: set<Handle>, released: set<Handle>, h: Handle, live: set<Handle>, live': set<Handle>)
    requires h !in released && live == live0 - released
    requires live' == if h in live then live - {h} else live
    ensures live' == live0 - (released + {h})
    ensures h in live <==> h in live0
  {
  }

  lemma DoneStep(keys: set<string>, done: set<string>, left: set<string>, k: string)
    requires left == keys - done && k in left
    ensures left - {k} == keys - (done + {k})
  {
  }

  /** Adding a key adds its handle, which no other key stores. */
  lemma StoredAdd(m: map<string, Handle>, keys: set<string>, k: string)
    requires keys <= m.Keys && k in m && k !in keys && Injective(m)
    ensures Stored(m, keys + {k}) == Stored(m, keys) + {m[k]}
    ensures m[k] !in Stored(m, keys)
  {
  }

  lemma StoredNone(m: map<string, Handle>)
    ensures Stored(m, {}) == {}
  {
  }

  lemma StoredAll(m: map<string, Handle>)
    ensures Stored(m, m.Keys) == m.Values
  {
    forall h | h in m.Values ensures h in Stored(m, m.Keys) {
      var k :| k in m && m[k] == h;
    }
  }
}
