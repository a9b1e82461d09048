/** Runs of updates and deletes on a trie that was never loaded: unless a delete loses something,
    the root depends on what is bound at the end alone, and tells it. */
module TrieRuns {
  import opened Bytes
  import opened HexPrefix
  import opened PatriciaTree
  import opened Rlp
  import opened NodeStore
  import opened NodeOps
  import opened NodeDelete
  import opened TrieHistory
  import opened TrieObject

  /** The operation binds a value that is not empty, or loses nothing else. */
  predicate Clean(h: Codec, t: Tree, op: Op)
    requires Canonical(t)
  {
    CanonicalNode(t);
    match op
    case Set(_, v) => v != []
    case Remove(k, _) => !Lossy(h, t, KeyOf(k))
    case Look(_) => true
  }

  function After(h: Codec, t: Tree, op: Op): (u: Tree)
    requires Canonical(t) && Clean(h, t, op)
    ensures Canonical(u)
  {
    CanonicalNode(t);
    match op
    case Set(k, v) => InsertCanonical(t, KeyOf(k), v); Insert(t, KeyOf(k), Val(v))
    case Remove(k, _) => DeletedCanonical(h, t, KeyOf(k)); Deleted(h, t, KeyOf(k))
    case Look(_) => t
  }

  predicate AllClean(h: Codec, t: Tree, ops: seq<Op>)
    requires Canonical(t)
    decreases |ops|
  {
    ops == [] || (Clean(h, t, ops[0]) && AllClean(h, After(h, t, ops[0]), ops[1..]))
  }

  /** The tree after a run. */
  function RunTree(h: Codec, t: Tree, ops: seq<Op>): (u: Tree)
    requires Canonical(t) && AllClean(h, t, ops)
    ensures Canonical(u)
    decreases |ops|
  {
    if ops == [] then t else RunTree(h, After(h, t, ops[0]), ops[1..])
  }

  function OnMap(m: map<seq<byte>, seq<byte>>, op: Op): map<seq<byte>, seq<byte>> {
    match op
    case Set(k, v) => m[k := v]
    case Remove(k, _) => m - {k}
    case Look(_) => m
  }

  /** The map after the same run. */
  function RunMap(m: map<seq<byte>, seq<byte>>, ops: seq<Op>): map<seq<byte>, seq<byte>>
    decreases |ops|
  {
    if ops == [] then m else RunMap(OnMap(m, ops[0]), ops[1..])
  }

  lemma {:induction false} DeletedBinds(h: Codec, t: Tree, m: map<seq<byte>, seq<byte>>, key: seq<byte>)
    requires h.mode != Faded && Canonical(t) && Binds(t, m) && Insertable(t, KeyOf(key)) && !Lossy(h, t, KeyOf(key))
    ensures Binds(Deleted(h, t, KeyOf(key)), m - {key})
  {
    CanonicalNode(t);
    DeletedCanonical(h, t, KeyOf(key));
    DeletedRemoves(h, t, KeyOf(key));
    var u := Deleted(h, t, KeyOf(key));
    forall s ensures Lookup(u, KeyOf(s)) == if s in m - {key} then (m - {key})[s] else [] {
      if KeyOf(s) == KeyOf(key) { KeyOfInjective(s, key); }
    }
  }

  lemma {:induction false} AfterBinds(h: Codec, t: Tree, m: map<seq<byte>, seq<byte>>, op: Op)
    requires h.mode != Faded && Canonical(t) && Binds(t, m) && FullMap(m) && Clean(h, t, op)
    ensures Binds(After(h, t, op), OnMap(m, op)) && FullMap(OnMap(m, op))
  {
    CanonicalNode(t);
    match op
    case Set(k, v) => InsertBinds(t, m, k, v);
    case Remove(k, _) => DeletedBinds(h, t, m, k);
    case Look(_) =>
  }

  lemma {:induction false} RunBinds(h: Codec, t: Tree, m: map<seq<byte>, seq<byte>>, ops: seq<Op>)
    requires h.mode != Faded && Canonical(t) && Binds(t, m) && FullMap(m) && AllClean(h, t, ops)
    ensures Binds(RunTree(h, t, ops), RunMap(m, ops)) && FullMap(RunMap(m, ops))
    decreases |ops|
  {
    if ops != [] {
      AfterBinds(h, t, m, ops[0]);
      RunBinds(h, After(h, t, ops[0]), OnMap(m, ops[0]), ops[1..]);
    }
  }

  /** Two clean runs have the same root if and only if they leave the same map. */
  lemma {:induction false} RunRoots(h: Codec, ops: seq<Op>, ops': seq<Op>)
    requires Sound(h) && h.mode != Faded && AllClean(h, Empty, ops) && AllClean(h, Empty, ops')
    ensures RootOf(h, RunTree(h, Empty, ops)) == RootOf(h, RunTree(h, Empty, ops')) <==> RunMap(map[], ops) == RunMap(map[], ops')
  {
    var t, u := RunTree(h, Empty, ops), RunTree(h, Empty, ops');
    var m, m' := RunMap(map[], ops), RunMap(map[], ops');
    RunBinds(h, Empty, map[], ops);
    RunBinds(h, Empty, map[], ops');
    RootTrees(h, t, u);
    if m == m' { BindsUnique(t, u, m); }
    if t == u { MapsEqual(t, m, m'); }
  }

  // ---- On the object -----------------------------------------------------------------------

  /** Whether the rest of a run is all that is left of it. */
  ghost predicate Midway(h: Codec, t: Tree, ops: seq<Op>, clean: bool, u: Tree, rest: seq<Op>)
    requires Canonical(t)
  {
    && (clean ==> Canonical(u))
    && (AllClean(h, t, ops) <==> clean && AllClean(h, u, rest))
    && (AllClean(h, t, ops) ==> RunTree(h, t, ops) == RunTree(h, u, rest))
  }

  /** One operation; the outcome tells whether it was clean. */
  method RunOne(t: Trie, op: Op) returns (status: Status)
    requires t.Valid() && t.h.mode == Built
    modifies t
    ensures t.Valid() && t.h == old(t.h)
    ensures Canonical(old(t.tree)) && status != Panicked ==>
              && (status == Done <==> Clean(t.h, old(t.tree), op))
              && (status == Done ==> t.tree == After(t.h, old(t.tree), op))
  {
    match op {
      case Set(k, v) =>
        t.Update(k, v);
        status := if v != [] then Done else Dropped;
      case Remove(k, tail) =>
        if Canonical(t.tree) { DeletedCanonical(t.h, t.tree, KeyOf(k)); }
        status := t.Delete(k, tail);
      case Look(k) =>
        var value := t.Get(k);
        status := Done;
    }
  }

  /** A run on a trie that was never loaded. Unless a delete panics, the statuses tell whether
      the run was clean; then the root is that of the run's tree. */
  method Run(t: Trie, ops: seq<Op>) returns (panicked: bool, clean: bool)
    requires t.Valid() && t.h.mode == Built && Canonical(t.tree)
    modifies t
    ensures t.Valid() && t.h == old(t.h)
    ensures !panicked ==> (clean <==> AllClean(t.h, old(t.tree), ops))
    ensures !panicked && clean ==> t.tree == RunTree(t.h, old(t.tree), ops) && StrOf(t.root) == RootOf(t.h, t.tree)
  {
    panicked, clean := false, true;
    assert ops[0..] == ops;
    for i := 0 to |ops|
      invariant t.Valid() && t.h == old(t.h) && !panicked
      invariant Midway(t.h, old(t.tree), ops, clean, t.tree, ops[i..])
    {
      var status := RunOne(t, ops[i]);
      if status == Panicked { return true, clean; }
      clean := clean && status == Done;
      assert ops[i..][1..] == ops[i + 1..];
    }
    if clean { CanonicalRoot(t.h, t.cache, t.root, t.tree); }
  }

  /** Two tries that went through different clean runs have the same root if and only if the runs
      leave the same bindings. */
  method SameRootsAfter(h: Codec, db: map<seq<byte>, Content>, ops: seq<Op>, ops': seq<Op>)
    returns (a: Trie, b: Trie, panicked: bool, clean: bool)
    requires Sound(h) && h.mode == Built && h.base == Read
    requires forall k | k in db :: k == h.sha(db[k])
    ensures fresh(a) && fresh(b)
    ensures !panicked ==> (clean <==> AllClean(h, Empty, ops) && AllClean(h, Empty, ops'))
    ensures !panicked && clean ==> (StrOf(a.root) == StrOf(b.root) <==> RunMap(map[], ops) == RunMap(map[], ops'))
  {
    a := new Trie(h, db, Str([]), Empty);
    b := new Trie(h, db, Str([]), Empty);
    var panicked', clean';
    panicked, clean := Run(a, ops);
    panicked', clean' := Run(b, ops');
    panicked, clean := panicked || panicked', clean && clean';
    if !panicked && clean { RunRoots(h, ops, ops'); }
  }
}
