/** `iterateNode` and `fetchNode` of `monktrie/trie.go`: a walk that calls back once
    for every bound key. The calls made so far are the accumulated result. */
module NodeIterator {
  import opened Bytes
  import opened HexPrefix
  import opened PatriciaTree
  import opened Rlp
  import opened NodeStore
  import opened NodeOps

  type Entry = (Nibbles, seq<byte>)

  // ---- The bindings of a tree in walking order ------------------------------------

  function Prefixed(p: Nibbles, ps: seq<Entry>): (r: seq<Entry>)
    ensures |r| == |ps|
    ensures forall i | 0 <= i < |ps| :: r[i] == (p + ps[i].0, ps[i].1)
  {
    seq(|ps|, i requires 0 <= i < |ps| => (p + ps[i].0, ps[i].1))
  }

  /** What the walk calls back with: at the end of a key part also an empty value. */
  function Pairs(t: Tree): seq<Entry>
    decreases t, 1
  {
    match t
    case Empty => []
    case Void => []
    case Val(v) => [([], v)]
    case Short(k, c) => if c.Empty? && Terminated(k) then [(k, [])] else Prefixed(k, Pairs(c))
    case Full(cs) => SlotPairs(cs, 0)
  }

  function SlotPairs(cs: seq<Tree>, i: nat): seq<Entry>
    requires i <= |cs|
    decreases cs, |cs| - i
  {
    if i == |cs| then [] else Prefixed([i], Pairs(cs[i])) + SlotPairs(cs, i + 1)
  }

  /** The pairs are exactly the bindings of the tree, each once. */
  ghost predicate Lists(t: Tree, ps: seq<Entry>) {
    && (forall i | 0 <= i < |ps| :: Insertable(t, ps[i].0) && ps[i].1 == Lookup(t, ps[i].0) != [])
    && (forall w | Insertable(t, w) && Lookup(t, w) != [] :: (w, Lookup(t, w)) in ps)
    && Distinct(ps)
  }

  ghost predicate Distinct(ps: seq<Entry>) {
    forall i, j | 0 <= i < j < |ps| :: ps[i].0 != ps[j].0
  }

  lemma {:induction false} PrefixedLists(k: Nibbles, c: Tree, ps: seq<Entry>)
    requires Node(Short(k, c)) && Lists(c, ps)
    ensures Lists(Short(k, c), Prefixed(k, ps))
  {
    var rs := Prefixed(k, ps);
    forall i | 0 <= i < |rs|
      ensures Insertable(Short(k, c), rs[i].0) && rs[i].1 == Lookup(Short(k, c), rs[i].0) != []
    {
      AtPart(k, c, ps[i].0);
    }
    forall w | Insertable(Short(k, c), w) && Lookup(Short(k, c), w) != []
      ensures (w, Lookup(Short(k, c), w)) in rs
    {
      Below(k, c, w);
      var r := w[|k|..];
      assert (r, Lookup(c, r)) in ps;
      var i :| 0 <= i < |ps| && ps[i] == (r, Lookup(c, r));
      assert rs[i].0 == w;
    }
    forall i, j | 0 <= i < j < |rs|
      ensures rs[i].0 != rs[j].0
    {
      assert rs[i].0[|k|..] == ps[i].0 && rs[j].0[|k|..] == ps[j].0;
    }
  }

  /** A key that goes on below a key part. */
  lemma AtPart(k: Nibbles, c: Tree, r: Nibbles)
    requires Node(Short(k, c)) && Insertable(c, r) && Lookup(c, r) != []
    ensures Insertable(Short(k, c), k + r) && Lookup(Short(k, c), k + r) == Lookup(c, r)
  {
    if r == [] {
      assert k + r == k;
      assert k[|k|..] == [];
    } else {
      ShortAt(k, c, r);
    }
  }

  lemma AtSlot(cs: seq<Tree>, i: nat, r: Nibbles)
    requires Node(Full(cs)) && i < 17 && Insertable(cs[i], r) && Lookup(cs[i], r) != []
    ensures IsKey([i] + r) && Lookup(Full(cs), [i] + r) == Lookup(cs[i], r)
  {
    assert ([i] + r)[1..] == r;
    if i < 16 { FullAt(cs, i, r); }
  }

  lemma BelowSlotKey(cs: seq<Tree>, w: Nibbles)
    requires Node(Full(cs)) && IsKey(w)
    ensures w[0] < 17 && w == [w[0]] + w[1..] && Insertable(cs[w[0]], w[1..])
    ensures Lookup(Full(cs), w) == Lookup(cs[w[0]], w[1..])
  {
    KeyTail(w, 0);
  }

  ghost predicate ListsFrom(cs: seq<Tree>, i: nat, ps: seq<Entry>) {
    && (forall j | 0 <= j < |ps| ::
          IsKey(ps[j].0) && ps[j].0[0] >= i && ps[j].1 == Lookup(Full(cs), ps[j].0) != [])
    && (forall w | IsKey(w) && w[0] >= i && Lookup(Full(cs), w) != [] :: (w, Lookup(Full(cs), w)) in ps)
    && Distinct(ps)
  }

  /** The calls for one slot. */
  ghost predicate ListsAt(cs: seq<Tree>, i: nat, ps: seq<Entry>) {
    && (forall j | 0 <= j < |ps| ::
          IsKey(ps[j].0) && ps[j].0[0] == i && ps[j].1 == Lookup(Full(cs), ps[j].0) != [])
    && (forall w | IsKey(w) && w[0] == i && Lookup(Full(cs), w) != [] :: (w, Lookup(Full(cs), w)) in ps)
    && Distinct(ps)
  }

  lemma {:induction false} SlotLists(cs: seq<Tree>, i: nat, ps: seq<Entry>)
    requires Node(Full(cs)) && i < 17 && Lists(cs[i], ps)
    ensures ListsAt(cs, i, Prefixed([i], ps))
  {
    var rs := Prefixed([i], ps);
    forall j | 0 <= j < |rs|
      ensures IsKey(rs[j].0) && rs[j].0[0] == i && rs[j].1 == Lookup(Full(cs), rs[j].0) != []
    {
      AtSlot(cs, i, ps[j].0);
    }
    forall w | IsKey(w) && w[0] == i && Lookup(Full(cs), w) != []
      ensures (w, Lookup(Full(cs), w)) in rs
    {
      BelowSlotKey(cs, w);
      assert (w[1..], Lookup(cs[i], w[1..])) in ps;
      var j :| 0 <= j < |ps| && ps[j] == (w[1..], Lookup(cs[i], w[1..]));
      assert rs[j].0 == w;
    }
    forall a, b | 0 <= a < b < |rs|
      ensures rs[a].0 != rs[b].0
    {
      assert rs[a].0[1..] == ps[a].0 && rs[b].0[1..] == ps[b].0;
    }
  }

  lemma {:induction false} JoinLists(cs: seq<Tree>, i: nat, ps: seq<Entry>, rs: seq<Entry>)
    requires ListsAt(cs, i, ps) && ListsFrom(cs, i + 1, rs)
    ensures ListsFrom(cs, i, ps + rs)
  {
    forall w | IsKey(w) && w[0] >= i && Lookup(Full(cs), w) != []
      ensures (w, Lookup(Full(cs), w)) in ps + rs
    {
      if w[0] == i { assert (w, Lookup(Full(cs), w)) in ps; } else { assert (w, Lookup(Full(cs), w)) in rs; }
    }
  }

  lemma {:induction false} SlotsExact(cs: seq<Tree>, i: nat)
    requires Node(Full(cs)) && Solid(Full(cs)) && i <= 17
    ensures ListsFrom(cs, i, SlotPairs(cs, i))
    decreases cs, 17 - i
  {
    if i < 17 {
      PairsExact(cs[i]);
      SlotLists(cs, i, Pairs(cs[i]));
      SlotsExact(cs, i + 1);
      JoinLists(cs, i, Prefixed([i], Pairs(cs[i])), SlotPairs(cs, i + 1));
    }
  }

  /** No key ends in an empty value. */
  predicate Solid(t: Tree) {
    match t
    case Short(k, c) => (Terminated(k) ==> !c.Empty?) && Solid(c)
    case Full(cs) => forall i | 0 <= i < |cs| :: Solid(cs[i])
    case _ => true
  }

  /** The walk lists exactly the bindings: none twice, none missing, none made up. */
  lemma {:induction false} PairsExact(t: Tree)
    requires (Node(t) || IsSlot(t)) && Solid(t)
    ensures Lists(t, Pairs(t))
    decreases t
  {
    match t
    case Empty =>
    case Void =>
    case Val(v) =>
    case Short(k, c) =>
      PairsExact(c);
      PrefixedLists(k, c, Pairs(c));
    case Full(cs) =>
      SlotsExact(cs, 0);
  }

  // ---- The walk -------------------------------------------------------------------------

  /** A call back: the key as a string and the value. */
  type Call = (seq<byte>, seq<byte>)

  function Calls(key: Nibbles, ps: seq<Entry>): (r: seq<Call>)
    ensures |r| == |ps|
    ensures forall i | 0 <= i < |ps| :: r[i] == (DecodeCompact(key + ps[i].0), ps[i].1)
  {
    seq(|ps|, i requires 0 <= i < |ps| => (DecodeCompact(key + ps[i].0), ps[i].1))
  }

  lemma CallsPrefixed(key: Nibbles, k: Nibbles, ps: seq<Entry>)
    ensures Calls(key, Prefixed(k, ps)) == Calls(key + k, ps)
  {
    forall i | 0 <= i < |ps|
      ensures Calls(key, Prefixed(k, ps))[i] == Calls(key + k, ps)[i]
    {
      assert key + (k + ps[i].0) == key + k + ps[i].0;
    }
  }

  lemma CallsConcat(key: Nibbles, ps: seq<Entry>, rs: seq<Entry>)
    ensures Calls(key, ps + rs) == Calls(key, ps) + Calls(key, rs)
  {
  }

  lemma OneCall(key: Nibbles, v: seq<byte>)
    ensures Calls(key, Pairs(Val(v))) == [(DecodeCompact(key), v)]
  {
    assert key + [] == key;
  }

  /** Whatever the walk does keeps the store in order. */
  ghost predicate Walks(h: Codec, st: Store, st': Store) {
    Keeps(h, st, st') && CacheOk(h, st')
  }

  /** Nothing is stored under the empty key. */
  lemma {:induction false} FetchNothing(h: Codec, st: Store)
    requires Sound(h) && CacheOk(h, st)
    ensures Walks(h, st, Fetch(st, []).0) && Fetch(st, []).1.Nil?
  {
    FetchKeeps(h, st, []);
    assert [] !in st.db;
    if [] in st.nodes {
      assert NodeOk(h, st.db, [], st.nodes[[]]);
      assert |h.sha(Wire(st.nodes[[]].value))| >= 32;
    }
  }

  /** What is fetched for a child: its node under its hash, or nothing. */
  ghost predicate Fetchable(h: Codec, st: Store, node: seq<byte>, t: Tree) {
    if Branches(t) then StoredAt(h, st, node, t) && Node(t) && Holds(h, st, t)
    else Nothing(t) && node == []
  }

  ghost predicate StoredAt(h: Codec, st: Store, node: seq<byte>, t: Tree) {
    HasNode(h, st, node, NodeContent(h, t)) || (!h.mode.Opened? && IsBlank(t) && HasNode(h, st, node, L([])))
  }

  ghost predicate HasNode(h: Codec, st: Store, node: seq<byte>, n: Content) {
    node == h.sha(n) && Has(h, st, node, n)
  }

  lemma {:induction false} FetchStored(h: Codec, st: Store, node: seq<byte>, t: Tree)
    requires Sound(h) && CacheOk(h, st) && Branches(t) && Fetchable(h, st, node, t)
    ensures Walks(h, st, Fetch(st, node).0) && IsNode(h, Fetch(st, node).1, t) && Holds(h, Fetch(st, node).0, t)
  {
    FetchKeeps(h, st, node);
    NodeSize(h, t);
    if HasNode(h, st, node, NodeContent(h, t)) { FetchFinds(h, st, NodeContent(h, t)); } else { FetchFinds(h, st, L([])); }
    HoldsKept(h, st, h, Fetch(st, node).0, t);
  }

  method FetchNode(h: Codec, st: Store, key: Nibbles, node: seq<byte>, ghost t: Tree)
    returns (st': Store, out: seq<Call>)
    requires Sound(h) && h.mode != Faded && CacheOk(h, st) && Fetchable(h, st, node, t)
    ensures Walks(h, st, st') && out == Calls(key, Pairs(t))
    decreases t, 3
  {
    if Branches(t) { FetchStored(h, st, node, t); } else { FetchNothing(h, st); }
    var (st1, n) := Fetch(st, node);
    st', out := IterateNode(h, st1, key, n, t);
    KeepsBoth(h, st, st1, st');
  }

  /** A node, an empty list or nothing at all. */
  method IterateNode(h: Codec, st: Store, key: Nibbles, n: Item, ghost t: Tree)
    returns (st': Store, out: seq<Call>)
    requires Sound(h) && h.mode != Faded && CacheOk(h, st)
    requires if Branches(t) then IsNode(h, n, t) && Node(t) && Holds(h, st, t) else Nothing(t) && n.Nil?
    ensures Walks(h, st, st') && out == Calls(key, Pairs(t))
    decreases t, 2
  {
    if Branches(t) { NodeLength(h, n, t); }
    if Len(n) == 2 {
      st', out := IterateShort(h, st, key, n, t);
    } else if Len(n) == 0 {
      if Branches(t) { BlankPairs(t.cs, 0); }
      return st, [];
    } else {
      st', out := IterateFull(h, st, key, n, t);
    }
  }

  lemma {:induction false} BlankPairs(cs: seq<Tree>, i: nat)
    requires i <= |cs| && forall j | i <= j < |cs| :: cs[j].Empty?
    ensures SlotPairs(cs, i) == []
    decreases |cs| - i
  {
    if i < |cs| { BlankPairs(cs, i + 1); }
  }

  /** A subtree is a list inside its parent, a hash, or a value. */
  lemma {:induction false} ChildKinds(h: Codec, st: Store, x: Item, c: Tree)
    requires Sound(h) && h.mode != Faded && Refers(h, st, x, c) && (Node(c) || IsSlot(c))
    ensures Len(x) == 0 <==> Nothing(c)
    ensures Node(c) && !(Len(x) != 0 && StrOf(x) == []) ==> Fetchable(h, st, StrOf(x), c)
    ensures Node(c) && Len(x) != 0 && StrOf(x) == [] ==> Branches(c) && IsNode(h, x, c)
    ensures StrOf(x) == [] && !x.List? ==> c.Empty?
    ensures c.Val? ==> StrOf(x) == c.v
  {
    if Branches(c) {
      ResolveRef(h, st, x, c);
      NodeSize(h, c);
      if !x.List? {
        StrOfStands(h.mode, x, h.sha(NodeContent(h, c)));
        assert |h.sha(NodeContent(h, c))| >= 32;
      }
    } else if !x.List? {
      StrOfStands(h.mode, x, Lookup(c, []));
    }
  }

  method IterateShort(h: Codec, st: Store, key: Nibbles, n: Item, ghost t: Tree)
    returns (st': Store, out: seq<Call>)
    requires Sound(h) && h.mode != Faded && CacheOk(h, st)
    requires IsNode(h, n, t) && t.Short? && Node(t) && Holds(h, st, t)
    ensures Walks(h, st, st') && out == Calls(key, Pairs(t))
    decreases t, 1
  {
    var k, v := ReadShort(h, st, n, t);
    var pk := key + k;
    ChildKinds(h, st, v, t.c);
    if Len(v) != 0 && StrOf(v) == [] {
      CallsPrefixed(key, k, Pairs(t.c));
      st', out := IterateNode(h, st, pk, v, t.c);
    } else if k[|k| - 1] == 16 {
      LeafCalls(key, k, t.c);
      return st, [(DecodeCompact(pk), StrOf(v))];
    } else {
      CallsPrefixed(key, k, Pairs(t.c));
      st', out := FetchNode(h, st, pk, StrOf(v), t.c);
    }
  }

  lemma {:induction false} LeafCalls(key: Nibbles, k: Nibbles, c: Tree)
    requires Terminated(k) && IsSlot(c)
    ensures Calls(key, Pairs(Short(k, c))) == [(DecodeCompact(key + k), Lookup(c, []))]
  {
    if c.Val? {
      CallsPrefixed(key, k, Pairs(c));
      OneCall(key + k, c.v);
    }
  }

  method IterateSlot(h: Codec, st: Store, pk: Nibbles, i: nat, x: Item, ghost c: Tree)
    returns (st': Store, out: seq<Call>)
    requires Sound(h) && h.mode != Faded && CacheOk(h, st) && Refers(h, st, x, c)
    requires if i == 16 then IsSlot(c) else Node(c)
    ensures Walks(h, st, st') && out == Calls(pk, Pairs(c))
    decreases c, 4
  {
    ChildKinds(h, st, x, c);
    if i == 16 && Len(x) != 0 {
      OneCall(pk, StrOf(x));
      return st, [(DecodeCompact(pk), StrOf(x))];
    } else if Len(x) != 0 && StrOf(x) == [] {
      st', out := IterateNode(h, st, pk, x, c);
    } else if StrOf(x) != [] {
      st', out := FetchNode(h, st, pk, StrOf(x), c);
    } else {
      return st, [];
    }
  }

  /** The slots from `i` on are still to be called for. */
  ghost predicate Midway(h: Codec, st: Store, st': Store, key: Nibbles, cs: seq<Tree>, i: nat, out: seq<Call>) {
    && i <= |cs| && Walks(h, st, st')
    && Calls(key, SlotPairs(cs, 0)) == out + Calls(key, SlotPairs(cs, i))
  }

  lemma {:induction false} SlotCalls(key: Nibbles, cs: seq<Tree>, i: nat)
    requires i < |cs|
    ensures Calls(key, SlotPairs(cs, i)) == Calls(key + [i], Pairs(cs[i])) + Calls(key, SlotPairs(cs, i + 1))
  {
    CallsConcat(key, Prefixed([i], Pairs(cs[i])), SlotPairs(cs, i + 1));
    CallsPrefixed(key, [i], Pairs(cs[i]));
  }

  method NextSlot(h: Codec, ghost st: Store, st1: Store, key: Nibbles, n: Item, i: nat, out: seq<Call>, ghost t: Tree)
    returns (st': Store, out': seq<Call>)
    requires Sound(h) && h.mode != Faded
    requires IsNode(h, n, t) && n != List([]) && t.Full? && Node(t) && Holds(h, st, t) && i < 17
    requires Midway(h, st, st1, key, t.cs, i, out)
    ensures Midway(h, st, st', key, t.cs, i + 1, out')
    decreases t, 0
  {
    HoldsKept(h, st, h, st1, t);
    SlotPart(h, st1, n, t.cs, i);
    var more;
    st', more := IterateSlot(h, st1, key + [i], i, Get(n, i), t.cs[i]);
    KeepsBoth(h, st, st1, st');
    SlotCalls(key, t.cs, i);
    out' := out + more;
  }

  method IterateFull(h: Codec, st: Store, key: Nibbles, n: Item, ghost t: Tree)
    returns (st': Store, out: seq<Call>)
    requires Sound(h) && h.mode != Faded && CacheOk(h, st)
    requires IsNode(h, n, t) && n != List([]) && Len(n) == 17 && t.Full? && Node(t) && Holds(h, st, t)
    ensures Walks(h, st, st') && out == Calls(key, Pairs(t))
    decreases t, 1
  {
    st', out := st, [];
    for i := 0 to Len(n)
      invariant Midway(h, st, st', key, t.cs, i, out)
    {
      st', out := NextSlot(h, st, st', key, n, i, out, t);
    }
    assert SlotPairs(t.cs, 17) == [];
  }
}
