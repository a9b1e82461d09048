/** `getState` and `InsertState` of `monktrie/trie.go`: recursions over stored nodes that
    thread the cache. Each is proved to do to the nodes what the operation of
    `PatriciaTree` does to the tree they stand for. */
module NodeOps {
  import opened Bytes
  import opened HexPrefix
  import opened PatriciaTree
  import opened Rlp
  import opened NodeStore

  // ---- Reading a node -----------------------------------------------------------

  /** What a string reads as; a byte 0 that has faded still reads as 00. */
  lemma {:induction false} StrOfStands(m: Mode, x: Item, s: seq<byte>)
    requires Stands(m, x, S(s))
    ensures Len(x) == |StrOf(x)|
    ensures StrOf(x) == s || (m == Faded && x == Byte(0) && s == [])
  {
  }

  predicate Branches(t: Tree) {
    t.Short? || t.Full?
  }

  lemma NodeSize(h: Codec, t: Tree)
    requires Node(t) && Branches(t)
    ensures NodeContent(h, t).L?
    ensures |NodeContent(h, t).cs| == if t.Short? then 2 else 17
  {
  }

  /** `n` is the node of `t` as a Go list. */
  ghost predicate IsNode(h: Codec, n: Item, t: Tree) {
    n.List? && (Stands(h.mode, n, NodeContent(h, t)) || (!h.mode.Opened? && IsBlank(t) && n == List([])))
  }

  lemma {:induction false} ResolveAt(h: Codec, st: Store, x: Item, n: Content)
    requires Sound(h) && n.L? && StrOf(x) == h.sha(n) && !x.List? && Has(h, st, h.sha(n), n)
    ensures Keeps(h, st, GetNode(st, x).0) && Stands(h.mode, GetNode(st, x).1, n)
  {
    assert |StrOf(x)| >= 32;
    FetchKeeps(h, st, h.sha(n));
    FetchFinds(h, st, n);
  }

  lemma {:induction false} ResolveInline(h: Codec, st: Store, x: Item, t: Tree)
    requires Node(t) && Branches(t) && Stands(h.mode, x, NodeContent(h, t))
    ensures Len(x) > 0 && GetNode(st, x) == (st, x) && IsNode(h, x, t)
  {
    NodeSize(h, t);
    assert Stands(h.mode, x.items[0], NodeContent(h, t).cs[0]);
  }

  lemma {:induction false} ResolveRoot(h: Codec, st: Store, x: Item, t: Tree)
    requires Sound(h) && IsRoot(h, st, x, t) && Node(t) && Branches(t)
    ensures Len(x) > 0
    ensures Keeps(h, st, GetNode(st, x).0) && IsNode(h, GetNode(st, x).1, t)
  {
    NodeSize(h, t);
    if RootAt(h, st, x, NodeContent(h, t)) {
      ResolveAt(h, st, x, NodeContent(h, t));
    } else {
      ResolveAt(h, st, x, L([]));
      assert GetNode(st, x).1 == List([]);
    }
    assert Len(x) == |StrOf(x)| >= 32;
  }

  /** A reference to a node is its hash or the node itself. */
  lemma {:induction false} ResolveRef(h: Codec, st: Store, x: Item, t: Tree)
    requires Sound(h) && Refers(h, st, x, t) && Node(t) && Branches(t)
    ensures Len(x) > 0 && !x.Byte?
    ensures Keeps(h, st, GetNode(st, x).0) && IsNode(h, GetNode(st, x).1, t)
    ensures Len(GetNode(st, x).1) == if t.Short? then 2 else 17
  {
    NodeSize(h, t);
    var n := NodeContent(h, t);
    if h.inline(n) {
      ResolveInline(h, st, x, t);
      assert Keeps(h, st, st);
    } else {
      StrOfStands(h.mode, x, h.sha(n));
      assert |h.sha(n)| >= 32;
      ResolveAt(h, st, x, n);
    }
  }

  /** `getNode` finds the node an item refers to, inline or hashed. */
  lemma {:induction false} Resolve(h: Codec, st: Store, x: Item, t: Tree)
    requires Sound(h) && Points(h, st, x, t) && Node(t) && Branches(t)
    ensures Len(x) > 0
    ensures var (st', n) := GetNode(st, x);
            && Keeps(h, st, st') && IsNode(h, n, t)
            && Sized(n, t)
  {
    if Refers(h, st, x, t) { ResolveRef(h, st, x, t); } else { ResolveRoot(h, st, x, t); }
    NodeLength(h, GetNode(st, x).1, t);
  }

  /** The length of a node as the code looks at it. */
  predicate Sized(n: Item, t: Tree) {
    if t.Short? then Len(n) == 2 else Len(n) == 17 || (Len(n) == 0 && n == List([]) && IsBlank(t))
  }

  lemma {:induction false} NodeLength(h: Codec, n: Item, t: Tree)
    requires IsNode(h, n, t) && Node(t) && Branches(t)
    ensures Sized(n, t)
  {
    NodeSize(h, t);
  }

  lemma KeepsBoth(h: Codec, a: Store, b: Store, c: Store)
    requires Keeps(h, a, b) && Keeps(h, b, c)
    ensures Keeps(h, a, c)
  {
  }

  predicate Nothing(t: Tree) {
    t.Empty? || t.Void?
  }

  /** Where there is no node, an item has no length. */
  lemma {:induction false} ResolveNothing(h: Codec, st: Store, x: Item, t: Tree)
    requires Points(h, st, x, t) && Nothing(t) && !x.Byte?
    ensures Len(x) == 0 && GetNode(st, x) == (st, x) && StrOf(x) == []
  {
  }

  /** The first byte of a key part says whether the key ends in it. */
  lemma {:induction false} CompactFlag(k: Nibbles)
    requires IsPart(k)
    ensures CompactEncode(k) != []
    ensures CompactEncode(k)[0] >= 0x20 <==> IsKey(k)
    ensures |CompactEncode(k)| == 1 ==> CompactEncode(k)[0] > 0
  {
    FlagRoundTrip(k);
    var f := Flagged(k);
    PackPair(f);
    assert IsKey(k) <==> Terminated(k);
  }

  /** The key part and the child of a two-item node. */
  lemma {:induction false} ShortParts(h: Codec, st: Store, n: Item, k: Nibbles, c: Tree)
    requires Sound(h) && IsNode(h, n, Short(k, c)) && Node(Short(k, c)) && Holds(h, st, Short(k, c))
    ensures k != [] && StrOf(Get(n, 0)) == CompactEncode(k) != [] && CompactDecode(StrOf(Get(n, 0))) == k
    ensures Refers(h, st, Get(n, 1), c)
    ensures IsPath(k) ==> !Get(n, 1).Byte?
  {
    var cs := NodeContent(h, Short(k, c)).cs;
    assert Stands(h.mode, n.items[0], cs[0]) && Stands(h.mode, n.items[1], cs[1]);
    CompactFlag(k);
    StrOfStands(h.mode, n.items[0], CompactEncode(k));
    CompactRoundTrip(k);
    if IsPath(k) { NoByte(h, n, cs, 1, c); }
  }

  /** A node has a byte only where a value may be. */
  lemma {:induction false} NoByte(h: Codec, n: Item, cs: seq<Content>, i: nat, c: Tree)
    requires Sound(h) && n.List? && i < |n.items| && Stands(h.mode, n, L(cs)) && cs[i] == Ref(h, c) && Node(c)
    requires !ValuePlace(cs, i)
    ensures !n.items[i].Byte?
  {
    assert Stands(h.mode, n.items[i], cs[i]);
    assert FadedHere(n.items[i], cs[i]) ==> ValuePlace(cs, i);
    if Branches(c) { assert |h.sha(NodeContent(h, c))| >= 32; NodeSize(h, c); }
  }

  method ReadShort(h: Codec, st: Store, n: Item, ghost t: Tree) returns (k: Nibbles, v: Item)
    requires Sound(h) && IsNode(h, n, t)
    requires t.Short? && Node(t) && Holds(h, st, t)
    ensures k == t.k && v == Get(n, 1) && Refers(h, st, v, t.c)
    ensures IsPath(k) ==> !v.Byte?
  {
    ShortParts(h, st, n, t.k, t.c);
    return CompactDecode(StrOf(Get(n, 0))), Get(n, 1);
  }

  lemma {:induction false} SlotPart(h: Codec, st: Store, n: Item, cs: seq<Tree>, i: nat)
    requires Sound(h) && IsNode(h, n, Full(cs)) && n != List([]) && Node(Full(cs))
    requires i < |cs| && Holds(h, st, Full(cs))
    ensures Refers(h, st, Get(n, i), cs[i])
    ensures i < 16 ==> !Get(n, i).Byte?
  {
    var rs := Refs(h, cs);
    assert Stands(h.mode, n.items[i], rs[i]);
    if i < 16 { NoByte(h, n, rs, i, cs[i]); }
  }

  lemma {:induction false} Below(k: Nibbles, c: Tree, key: Nibbles)
    requires Node(Short(k, c)) && IsKey(key)
    ensures if |key| >= |k| && k == key[..|k|]
            then Insertable(c, key[|k|..]) && Lookup(Short(k, c), key) == Lookup(c, key[|k|..])
                 && (key[|k|..] != [] ==> IsPath(k))
            else Lookup(Short(k, c), key) == []
  {
    if |key| >= |k| && k == key[..|k|] {
      if IsPath(k) { KeySuffix(k, key); } else { PrefixKeys(k, key); }
    }
  }

  // ---- getState --------------------------------------------------------------------

  /** The value of a key, up to one that has faded. */
  ghost predicate Gives(h: Codec, r: Item, v: seq<byte>) {
    StrOf(r) == v || (h.mode == Faded && StrOf(r) == [0] && v == [])
  }

  method GetState(h: Codec, st: Store, x: Item, key: Nibbles, ghost t: Tree)
    returns (st': Store, r: Item)
    requires Sound(h) && Points(h, st, x, t) && Insertable(t, key) && (key != [] ==> !x.Byte?)
    ensures Keeps(h, st, st')
    ensures Gives(h, r, Lookup(t, key))
    decreases |key|, 3
  {
    if key == [] { SlotValue(h, st, x, t); return st, x; }
    if x.Nil? || Len(x) == 0 {
      if !Nothing(t) { Resolve(h, st, x, t); }
      return st, x;
    }
    if Nothing(t) { ResolveNothing(h, st, x, t); }
    st', r := GetInNode(h, st, x, key, t);
  }

  method GetInNode(h: Codec, st: Store, x: Item, key: Nibbles, ghost t: Tree)
    returns (st': Store, r: Item)
    requires Sound(h) && Points(h, st, x, t) && IsKey(key) && Node(t) && Branches(t)
    ensures Keeps(h, st, st')
    ensures Gives(h, r, Lookup(t, key))
    decreases |key|, 2
  {
    Resolve(h, st, x, t);
    HoldsPoints(h, st, x, t);
    var (st1, n) := GetNode(st, x);
    HoldsKept(h, st, h, st1, t);
    st', r := GetInList(h, st1, n, key, t);
    KeepsBoth(h, st, st1, st');
  }

  method GetInList(h: Codec, st: Store, n: Item, key: Nibbles, ghost t: Tree)
    returns (st': Store, r: Item)
    requires Sound(h) && IsNode(h, n, t) && IsKey(key) && Node(t) && Branches(t) && Holds(h, st, t)
    requires Sized(n, t)
    ensures Keeps(h, st, st')
    ensures Gives(h, r, Lookup(t, key))
    decreases |key|, 1
  {
    var length := Len(n);
    if length == 0 {
      BlankLookup(t, key);
      return st, Str([]);
    }
    if length == 2 {
      st', r := GetInShort(h, st, n, key, t);
    } else {
      st', r := GetInFull(h, st, n, key, t);
    }
  }

  lemma {:induction false} BlankLookup(t: Tree, key: Nibbles)
    requires IsBlank(t)
    ensures Lookup(t, key) == []
  {
  }

  lemma {:induction false} HoldsPoints(h: Codec, st: Store, x: Item, t: Tree)
    requires Points(h, st, x, t)
    ensures Holds(h, st, t)
  {
  }

  lemma {:induction false} SlotValue(h: Codec, st: Store, x: Item, t: Tree)
    requires Points(h, st, x, t) && IsSlot(t)
    ensures Gives(h, x, Lookup(t, []))
  {
    if Refers(h, st, x, t) { StrOfStands(h.mode, x, Lookup(t, [])); }
  }

  method GetInShort(h: Codec, st: Store, n: Item, key: Nibbles, ghost t: Tree)
    returns (st': Store, r: Item)
    requires Sound(h) && IsNode(h, n, t)
    requires t.Short? && Holds(h, st, t) && Node(t) && IsKey(key)
    ensures Keeps(h, st, st')
    ensures Gives(h, r, Lookup(t, key))
    decreases |key|, 0
  {
    var k, v := ReadShort(h, st, n, t);
    Below(k, t.c, key);
    if |key| >= |k| && k == key[..|k|] {
      st', r := GetState(h, st, v, key[|k|..], t.c);
    } else {
      return st, Str([]);
    }
  }

  method GetInFull(h: Codec, st: Store, n: Item, key: Nibbles, ghost t: Tree)
    returns (st': Store, r: Item)
    requires Sound(h) && IsNode(h, n, t) && n != List([])
    requires t.Full? && Holds(h, st, t) && Node(t) && IsKey(key)
    ensures Keeps(h, st, st')
    ensures Gives(h, r, Lookup(t, key))
    decreases |key|, 0
  {
    KeyTail(key, 0);
    SlotPart(h, st, n, t.cs, key[0]);
    st', r := GetState(h, st, Get(n, key[0]), key[1..], t.cs[key[0]]);
  }

  // ---- Encoding again ----------------------------------------------------------------

  /** The tree that an item encodes as, if it reads as `t`: a byte 0 encodes as nothing. */
  ghost function FadeOf(x: Item, t: Tree): Tree
    decreases t
  {
    match t
    case Val(v) => if x == Byte(0) then Empty else t
    case Short(k, c) => if x.List? && |x.items| == 2 then Short(k, FadeOf(x.items[1], c)) else t
    case Full(cs) => if x.List? && |x.items| == |cs| then Full(FadeAll(x.items, cs)) else t
    case _ => t
  }

  ghost function FadeAll(xs: seq<Item>, cs: seq<Tree>): (ds: seq<Tree>)
    requires |xs| == |cs|
    ensures |ds| == |cs| && forall i | 0 <= i < |cs| :: ds[i] == FadeOf(xs[i], cs[i])
    decreases cs
  {
    if cs == [] then [] else [FadeOf(xs[0], cs[0])] + FadeAll(xs[1..], cs[1..])
  }

  /** What is claimed of an item `x` that reads as `t` and encodes as `u`. */
  ghost predicate Rewired(h: Codec, st: Store, x: Item, t: Tree, u: Tree) {
    Writes(h, st, x, u) && Dims(Ref(h, t), Ref(h, u)) && Like(h, t, u)
  }

  /** `u` is `t`, or in `Faded` mode `t` up to values 00. */
  ghost predicate Like(h: Codec, t: Tree, u: Tree) {
    && Alike(t, u)
    && (h.mode != Faded ==> u == t)
    && (Node(t) ==> Node(u)) && (IsSlot(t) ==> IsSlot(u))
  }

  lemma LikeShort(h: Codec, k: Nibbles, c: Tree, d: Tree)
    requires Like(h, c, d)
    ensures Like(h, Short(k, c), Short(k, d))
  {
  }

  lemma LikeLeaf(h: Codec, k: Nibbles, c: Tree, d: Tree)
    requires Like(h, c, d)
    ensures Like(h, NewLeaf(k, c), NewLeaf(k, d))
  {
  }

  ghost predicate LikeAll(h: Codec, cs: seq<Tree>, ds: seq<Tree>) {
    |cs| == |ds| && forall i | 0 <= i < |cs| :: Like(h, cs[i], ds[i])
  }

  lemma LikeFull(h: Codec, cs: seq<Tree>, ds: seq<Tree>)
    requires LikeAll(h, cs, ds)
    ensures Like(h, Full(cs), Full(ds))
  {
    if h.mode != Faded { assert ds == cs; }
  }

  /** If nodes were loaded and none has faded, trees with no value 00, and otherwise any. */
  ghost predicate Writable(h: Codec, t: Tree) {
    h.mode == Read || h.mode.Opened? ==> ZeroFree(t)
  }

  lemma {:induction false} RewireSlot(h: Codec, st: Store, x: Item, t: Tree)
    requires Refers(h, st, x, t) && Writable(h, t) && (IsSlot(t) || t.Void?)
    ensures Rewired(h, st, x, t, FadeOf(x, t))
  {
    if x.Byte? { OneByte(x.b); }
  }

  lemma {:induction false} Rewire(h: Codec, st: Store, x: Item, t: Tree)
    requires Sound(h) && Refers(h, st, x, t) && Writable(h, t) && (Node(t) || IsSlot(t))
    ensures Rewired(h, st, x, t, FadeOf(x, t))
    decreases t, 1
  {
    if !Branches(t) {
      RewireSlot(h, st, x, t);
    } else if !h.inline(NodeContent(h, t)) {
      assert |h.sha(NodeContent(h, t))| >= 32;
      DimsSelf(Ref(h, t));
    } else if t.Short? {
      RewireShort(h, st, x, t.k, t.c);
    } else {
      RewireFull(h, st, x, t.cs);
    }
  }

  lemma {:induction false} DimsSelf(c: Content)
    ensures Dims(c, c)
  {
    if c.L? {
      forall i | 0 <= i < |c.cs| ensures Dims(c.cs[i], c.cs[i]) { DimsSelf(c.cs[i]); }
    }
  }

  lemma {:induction false} StringWire(m: Mode, x: Item, s: seq<byte>)
    requires Stands(m, x, S(s)) && s != [] && s != [0]
    ensures Wire(x) == S(s)
  {
    if x.Byte? { OneByte(x.b); }
  }

  lemma {:induction false} RewireShort(h: Codec, st: Store, x: Item, k: Nibbles, c: Tree)
    requires Sound(h) && Refers(h, st, x, Short(k, c)) && Writable(h, c) && Node(Short(k, c))
    requires h.inline(NodeContent(h, Short(k, c)))
    ensures Rewired(h, st, x, Short(k, c), FadeOf(x, Short(k, c)))
    decreases c, 2
  {
    var t, d := Short(k, c), FadeOf(x.items[1], c);
    var n, n' := NodeContent(h, t), NodeContent(h, Short(k, d));
    assert Stands(h.mode, x.items[0], n.cs[0]) && Stands(h.mode, x.items[1], n.cs[1]);
    Rewire(h, st, x.items[1], c);
    CompactFlag(k);
    StringWire(h.mode, x.items[0], CompactEncode(k));
    PairWire(x);
    DimsSelf(n.cs[0]);
    assert Dims(n, n');
    FadedPair(h, x, k, c, d);
    FadedShort(h, st, x, k, c, d);
  }

  lemma {:induction false} PairWire(x: Item)
    requires x.List? && |x.items| == 2
    ensures Wire(x) == L([Wire(x.items[0]), Wire(x.items[1])])
  {
    assert WireAll(x.items) == [Wire(x.items[0]), Wire(x.items[1])];
  }

  lemma {:induction false} FadedShort(h: Codec, st: Store, x: Item, k: Nibbles, c: Tree, d: Tree)
    requires Sound(h) && h.inline(NodeContent(h, Short(k, c))) && Like(h, c, d) && Holds(h, st, d)
    requires var n, n' := NodeContent(h, Short(k, c)), NodeContent(h, Short(k, d));
             Dims(n, n') && Wire(x) == n' && Stands(h.mode, x, n')
    ensures Rewired(h, st, x, Short(k, c), Short(k, d))
  {
    LikeShort(h, k, c, d);
    assert h.inline(NodeContent(h, Short(k, d)));
  }

  lemma {:induction false} FadedPair(h: Codec, x: Item, k: Nibbles, c: Tree, d: Tree)
    requires Sound(h) && x.List? && Node(Short(k, c)) && Stands(h.mode, x, NodeContent(h, Short(k, c)))
    requires Stands(h.mode, x.items[1], Ref(h, d))
    ensures Stands(h.mode, x, NodeContent(h, Short(k, d)))
  {
    var n, n' := NodeContent(h, Short(k, c)), NodeContent(h, Short(k, d));
    assert Stands(h.mode, x.items[0], n.cs[0]);
    CompactFlag(k);
    if !ValuePlace(n.cs, 1) { NoByte(h, x, n.cs, 1, c); }
  }

  lemma {:induction false} RewireFull(h: Codec, st: Store, x: Item, cs: seq<Tree>)
    requires Sound(h) && Refers(h, st, x, Full(cs)) && Writable(h, Full(cs)) && Node(Full(cs))
    requires h.inline(NodeContent(h, Full(cs)))
    ensures Rewired(h, st, x, Full(cs), FadeOf(x, Full(cs)))
    decreases cs, 2
  {
    var rs := Refs(h, cs);
    var ds := FadeAll(x.items, cs);
    forall i | 0 <= i < 17 ensures Rewired(h, st, x.items[i], cs[i], ds[i]) {
      assert Stands(h.mode, x.items[i], rs[i]);
      Rewire(h, st, x.items[i], cs[i]);
    }
    RewiredSlots(h, st, x, cs, ds);
    FadedSlots(h, x, cs, ds);
    FadedBranch(h, st, x, cs, ds);
  }

  lemma {:induction false} FadedBranch(h: Codec, st: Store, x: Item, cs: seq<Tree>, ds: seq<Tree>)
    requires Sound(h) && h.inline(L(Refs(h, cs))) && Node(Full(cs)) && Node(Full(ds))
    requires Stands(h.mode, x, L(Refs(h, ds))) && Wire(x) == L(Refs(h, ds)) && Dims(L(Refs(h, cs)), L(Refs(h, ds)))
    requires Like(h, Full(cs), Full(ds))
    requires forall i | 0 <= i < 17 :: Holds(h, st, ds[i])
    ensures Rewired(h, st, x, Full(cs), Full(ds))
  {
    assert NodeContent(h, Full(ds)) == L(Refs(h, ds)) && NodeContent(h, Full(cs)) == L(Refs(h, cs));
    assert h.inline(NodeContent(h, Full(ds)));
  }

  lemma {:induction false} RewiredSlots(h: Codec, st: Store, x: Item, cs: seq<Tree>, ds: seq<Tree>)
    requires x.List? && |x.items| == |cs| == |ds| == 17 && Node(Full(cs))
    requires forall i | 0 <= i < 17 :: Rewired(h, st, x.items[i], cs[i], ds[i])
    ensures Wire(x) == L(Refs(h, ds)) && Dims(L(Refs(h, cs)), L(Refs(h, ds)))
    ensures Like(h, Full(cs), Full(ds)) && Node(Full(ds))
    ensures forall i | 0 <= i < 17 :: Holds(h, st, ds[i]) && Stands(h.mode, x.items[i], Refs(h, ds)[i])
  {
    assert WireAll(x.items) == Refs(h, ds);
    LikeFull(h, cs, ds);
  }

  lemma {:induction false} FadedSlots(h: Codec, x: Item, cs: seq<Tree>, ds: seq<Tree>)
    requires Sound(h) && x.List? && |x.items| == |cs| == |ds| == 17 && Node(Full(cs))
    requires Stands(h.mode, x, L(Refs(h, cs)))
    requires forall i | 0 <= i < 17 :: Stands(h.mode, x.items[i], Refs(h, ds)[i])
    ensures Stands(h.mode, x, L(Refs(h, ds)))
  {
    var rs := Refs(h, cs);
    forall i | 0 <= i < 17 ensures FadedHere(x.items[i], Refs(h, ds)[i]) ==> ValuePlace(Refs(h, ds), i) {
      if i < 16 { NoByte(h, x, rs, i, cs[i]); }
    }
  }

  // ---- InsertState -------------------------------------------------------------------

  function EmptyStringSlice(): (slots: seq<Item>)
    ensures |slots| == 17
  {
    seq(17, _ => Str([]))
  }

  /** `EmptyStringSlice(17)` overwritten with the slots of a node that are not nil. */
  function CopySlots(n: Item): (slots: seq<Item>)
    ensures |slots| == 17
  {
    seq(17, i requires 0 <= i => if Get(n, i) == Nil then Str([]) else Get(n, i))
  }

  ghost predicate HoldsChildren(h: Codec, st: Store, t: Tree)
    requires Branches(t)
  {
    match t
    case Short(_, c) => Holds(h, st, c)
    case Full(cs) => forall i | 0 <= i < |cs| :: Holds(h, st, cs[i])
  }

  /** Putting a node whose children are held gives an item that refers to it. */
  lemma {:induction false} PutNode(h: Codec, st: Store, v: Item, t: Tree)
    requires Sound(h) && Branches(t) && Stands(h.mode, v, NodeContent(h, t)) && Wire(v) == NodeContent(h, t)
    requires HoldsChildren(h, st, t)
    ensures var (st', r) := Put(h, st, v, false);
            Keeps(h, st, st') && Writes(h, st', r, t) && !r.Byte?
  {
    PutKeeps(h, st, v, false);
    var (st', r) := Put(h, st, v, false);
    match t
    case Short(_, c) => HoldsKept(h, st, h, st', c);
    case Full(cs) =>
      forall i | 0 <= i < |cs| ensures Holds(h, st', cs[i]) {
        HoldsKept(h, st, h, st', cs[i]);
      }
  }

  lemma PairContent(x: Item, y: Item)
    ensures Wire(List([x, y])) == L([Wire(x), Wire(y)])
  {
    assert WireAll([x, y]) == [Wire(x), Wire(y)];
  }

  /** A two-item node as it is built. */
  function Pair(k: Nibbles, x: Item): Item
    requires k != []
  {
    List([Str(CompactEncode(k)), x])
  }

  lemma {:induction false} PairStands(h: Codec, st: Store, k: Nibbles, x: Item, c: Tree)
    requires IsPart(k) && Writes(h, st, x, c) && (x.Byte? ==> IsKey(k))
    ensures Stands(h.mode, Pair(k, x), NodeContent(h, Short(k, c))) && Wire(Pair(k, x)) == NodeContent(h, Short(k, c))
  {
    PairContent(Str(CompactEncode(k)), x);
    PairReads(h, st, k, x, c);
  }

  lemma {:induction false} PairReads(h: Codec, st: Store, k: Nibbles, x: Item, c: Tree)
    requires IsPart(k) && Writes(h, st, x, c) && (x.Byte? ==> IsKey(k))
    ensures Stands(h.mode, Pair(k, x), NodeContent(h, Short(k, c)))
  {
    CompactFlag(k);
  }

  /** Putting a two-item node. */
  lemma {:induction false} PutShort(h: Codec, st: Store, k: Nibbles, x: Item, c: Tree)
    requires Sound(h) && IsPart(k) && Writes(h, st, x, c) && (x.Byte? ==> IsKey(k))
    ensures var (st', r) := Put(h, st, Pair(k, x), false);
            Keeps(h, st, st') && Writes(h, st', r, Short(k, c)) && !r.Byte?
  {
    PairStands(h, st, k, x, c);
    PutNode(h, st, Pair(k, x), Short(k, c));
  }

  /** Slots that refer to the subtrees, with a byte only at the value. */
  ghost predicate WritesAll(h: Codec, st: Store, slots: seq<Item>, cs: seq<Tree>) {
    && |slots| == |cs| == 17
    && (forall i | 0 <= i < 17 :: Writes(h, st, slots[i], cs[i]))
    && (forall i | 0 <= i < 16 :: !slots[i].Byte?)
    && (h.mode.Opened? ==> Stiff(slots, h.mode.cleared))
  }

  /** Putting a seventeen-item node. */
  lemma {:induction false} PutFull(h: Codec, st: Store, slots: seq<Item>, cs: seq<Tree>)
    requires Sound(h) && WritesAll(h, st, slots, cs)
    ensures var (st', r) := Put(h, st, List(slots), false);
            Keeps(h, st, st') && Writes(h, st', r, Full(cs)) && !r.Byte?
  {
    assert WireAll(slots) == Refs(h, cs);
    PutNode(h, st, List(slots), Full(cs));
  }

  lemma {:induction false} RefersKept(h: Codec, st: Store, st': Store, x: Item, t: Tree)
    requires Keeps(h, st, st')
    ensures Refers(h, st, x, t) ==> Refers(h, st', x, t)
    ensures Writes(h, st, x, t) ==> Writes(h, st', x, t)
  {
    if Refers(h, st, x, t) { HoldsKept(h, st, h, st', t); }
  }

  lemma {:induction false} TwoSlots(h: Codec, st: Store, i: nat, x: Item, t: Tree, j: nat, y: Item, u: Tree)
    requires i < 17 && j < 17 && Writes(h, st, x, t) && Writes(h, st, y, u)
    requires (x.Byte? ==> i == 16) && (y.Byte? ==> j == 16) && !h.mode.Opened?
    ensures WritesAll(h, st, EmptyStringSlice()[i := x][j := y], Blank()[i := t][j := u])
  {
    assert Writes(h, st, Str([]), Empty);
  }

  /** The subtrees that the slots of a node encode as once they are copied. */
  ghost function Copied(n: Item, cs: seq<Tree>): (ds: seq<Tree>)
    ensures |ds| == |cs|
  {
    if n.List? && |n.items| == |cs| then FadeAll(n.items, cs) else cs
  }

  lemma {:induction false} SlotCopied(h: Codec, st: Store, n: Item, cs: seq<Tree>, j: nat)
    requires Sound(h) && IsNode(h, n, Full(cs)) && Node(Full(cs)) && Writable(h, Full(cs))
    requires Holds(h, st, Full(cs)) && j < 17
    ensures Writes(h, st, CopySlots(n)[j], Copied(n, cs)[j]) && Like(h, cs[j], Copied(n, cs)[j])
    ensures Refers(h, st, CopySlots(n)[j], cs[j]) && Dims(Ref(h, cs[j]), Ref(h, Copied(n, cs)[j]))
    ensures j < 16 ==> !CopySlots(n)[j].Byte?
  {
    if n == List([]) {
      assert cs[j] == Empty;
    } else {
      NodeSize(h, Full(cs));
      SlotPart(h, st, n, cs, j);
      Rewire(h, st, Get(n, j), cs[j]);
    }
  }

  /** The copied slots, with one of them replaced, are still those of a loaded branch. */
  predicate StiffWith(n: Item, i: nat, slot: Item, d: nat)
    requires i < 17
  {
    Stiff(CopySlots(n)[i := slot], d)
  }

  lemma {:induction false} BlanksReplaced(xs: seq<Item>, ys: seq<Item>, i: nat, n: nat)
    requires n <= |xs| == |ys| && forall j | 0 <= j < n && j != i :: ys[j] == Str([]) ==> xs[j] == Str([])
    ensures Blanks(ys, n) <= Blanks(xs, n) + 1
    ensures n <= i || (i < n && ys[i] != Str([])) ==> Blanks(ys, n) <= Blanks(xs, n)
  {
    if n > 0 { BlanksReplaced(xs, ys, i, n - 1); }
  }

  /** Putting something in a slot clears none, and clearing it clears one. */
  lemma {:induction false} StaysStiff(h: Codec, n: Item, t: Tree, i: nat, slot: Item)
    requires h.mode.Opened? && IsNode(h, n, t) && t.Full? && Node(t) && i < 17
    ensures slot != Str([]) ==> StiffWith(n, i, slot, h.mode.cleared)
    ensures i < 16 ==> StiffWith(n, i, slot, h.mode.cleared + 1)
  {
    NodeSize(h, t);
    var ys := CopySlots(n)[i := slot];
    forall j | 0 <= j < 17 && j != i ensures ys[j] == n.items[j] {
      assert Stands(h.mode, n.items[j], NodeContent(h, t).cs[j]);
    }
    BlanksReplaced(n.items, ys, i, 16);
  }

  /** Replacing one slot of a node. */
  lemma {:induction false} SlotsReplaced(h: Codec, st: Store, st': Store, n: Item, cs: seq<Tree>, i: nat, slot: Item, child: Tree)
    requires Sound(h) && Keeps(h, st, st') && IsNode(h, n, Full(cs)) && Node(Full(cs)) && Writable(h, Full(cs))
    requires i < 17 && Holds(h, st, Full(cs)) && Writes(h, st', slot, child) && (i < 16 ==> !slot.Byte?)
    requires h.mode.Opened? ==> StiffWith(n, i, slot, h.mode.cleared)
    ensures WritesAll(h, st', CopySlots(n)[i := slot], Copied(n, cs)[i := child])
    ensures LikeAll(h, cs, Copied(n, cs))
  {
    forall j | 0 <= j < 17
      ensures Writes(h, st', CopySlots(n)[j], Copied(n, cs)[j]) && Like(h, cs[j], Copied(n, cs)[j])
      ensures j < 16 ==> !CopySlots(n)[j].Byte?
    {
      SlotCopied(h, st, n, cs, j);
      RefersKept(h, st, st', CopySlots(n)[j], Copied(n, cs)[j]);
    }
  }

  /** What `InsertState` does to the tree: into nothing it can put a whole subtree. */
  ghost function Inserted(t: Tree, key: Nibbles, x: Tree): Tree
    requires CanInsert(t, key)
  {
    if Nothing(t) then NewLeaf(key, x) else Insert(t, key, x)
  }

  ghost predicate CanInsert(t: Tree, key: Nibbles) {
    Insertable(t, key) || (Nothing(t) && IsPart(key))
  }

  /** The key leaves a key part in the middle, so that a new branch is made. */
  predicate Splits(t: Tree, key: Nibbles)
    requires Insertable(t, key)
    decreases |key|
  {
    key != [] &&
    match t {
      case Empty => false
      case Void => false
      case Short(k, c) =>
        && k != key
        && (Match(key, k) < |k| || (InsertShort(k, c, key, Empty); Splits(c, key[Match(key, k)..])))
      case Full(cs) => KeyTail(key, 0); Splits(cs[key[0]], key[1..])
    }
  }

  /** A value that may be put so that no new branch is made where none may be. */
  ghost predicate Unsplit(h: Codec, t: Tree, key: Nibbles, vt: Tree) {
    h.mode.Opened? ==> vt.Val? && vt.v != [] && (Nothing(t) || (Insertable(t, key) && !Splits(t, key)))
  }

  /** A byte is put only as the value at the end of a key. */
  predicate PutWell(value: Item, key: Nibbles) {
    value.Byte? ==> key == [] || IsKey(key)
  }

  method InsertState(h: Codec, st: Store, x: Item, key: Nibbles, value: Item, ghost t: Tree, ghost vt: Tree)
    returns (st': Store, r: Item, ghost u: Tree)
    requires Sound(h) && (Points(h, st, x, t) || (x.Nil? && t.Empty?)) && (key != [] ==> !x.Byte?)
    requires Writes(h, st, value, vt) && CanInsert(t, key) && Writable(h, t) && PutWell(value, key)
    requires Unsplit(h, t, key, vt)
    ensures Keeps(h, st, st') && Writes(h, st', r, u) && (r.Byte? ==> key == []) && (key == [] ==> r == value)
    ensures Like(h, Inserted(t, key, vt), u) && (Nothing(t) ==> u == NewLeaf(key, vt))
    decreases if Nothing(t) then 0 else |key|, 4
  {
    if key == [] { return st, value, vt; }
    if x.Nil? || Len(x) == 0 {
      if !Nothing(t) { Resolve(h, st, x, t); }
      PutShort(h, st, key, value, vt);
      var (st1, r1) := Put(h, st, Pair(key, value), false);
      return st1, r1, Short(key, vt);
    }
    if Nothing(t) { ResolveNothing(h, st, x, t); }
    st', r, u := InsertInNode(h, st, x, key, value, t, vt);
  }

  method InsertInNode(h: Codec, st: Store, x: Item, key: Nibbles, value: Item, ghost t: Tree, ghost vt: Tree)
    returns (st': Store, r: Item, ghost u: Tree)
    requires Sound(h) && Points(h, st, x, t) && Writes(h, st, value, vt) && Writable(h, t)
    requires IsKey(key) && Node(t) && Branches(t) && Unsplit(h, t, key, vt)
    ensures Keeps(h, st, st') && Writes(h, st', r, u) && !r.Byte? && Like(h, Insert(t, key, vt), u)
    decreases |key|, 3
  {
    Resolve(h, st, x, t);
    HoldsPoints(h, st, x, t);
    var (st1, n) := GetNode(st, x);
    HoldsKept(h, st, h, st1, t);
    RefersKept(h, st, st1, value, vt);
    if Len(n) == 2 {
      st', r, u := InsertShortNode(h, st1, n, key, value, t, vt);
    } else {
      st', r, u := InsertFullNode(h, st1, n, key, value, t, vt);
    }
    KeepsBoth(h, st, st1, st');
  }

  /** What a slot of a node refers to; the slots of an empty list are nil. */
  lemma {:induction false} SlotItem(h: Codec, st: Store, n: Item, cs: seq<Tree>, i: nat)
    requires Sound(h) && IsNode(h, n, Full(cs)) && Node(Full(cs)) && i < 17 && Holds(h, st, Full(cs))
    ensures Refers(h, st, Get(n, i), cs[i]) || (Get(n, i).Nil? && cs[i].Empty?)
    ensures i < 16 ==> !Get(n, i).Byte?
  {
    if n != List([]) { SlotPart(h, st, n, cs, i); }
  }

  method InsertFullNode(h: Codec, st: Store, n: Item, key: Nibbles, value: Item, ghost t: Tree, ghost vt: Tree)
    returns (st': Store, r: Item, ghost u: Tree)
    requires Sound(h) && IsNode(h, n, t) && Writable(h, t)
    requires t.Full? && Holds(h, st, t) && Writes(h, st, value, vt) && Node(t) && IsKey(key) && Unsplit(h, t, key, vt)
    ensures Keeps(h, st, st') && Writes(h, st', r, u) && !r.Byte? && Like(h, Insert(t, key, vt), u)
    decreases |key|, 1
  {
    var i := key[0];
    KeyTail(key, 0);
    SlotItem(h, st, n, t.cs, i);
    ghost var child;
    var st1, slot;
    st1, slot, child := InsertState(h, st, Get(n, i), key[1..], value, t.cs[i], vt);
    if h.mode.Opened? {
      InsertedSomething(h, st1, t.cs[i], key[1..], vt, slot, child);
      StaysStiff(h, n, t, i, slot);
    }
    SlotsReplaced(h, st, st1, n, t.cs, i, slot, child);
    var slots := CopySlots(n)[i := slot];
    u := Full(Copied(n, t.cs)[i := child]);
    InsertedSlot(h, t.cs, key, vt, Copied(n, t.cs), child);
    PutFull(h, st1, slots, u.cs);
    var (st2, r2) := Put(h, st1, List(slots), false);
    KeepsBoth(h, st, st1, st2);
    return st2, r2, u;
  }

  lemma {:induction false} InsertedSomething(h: Codec, st: Store, t: Tree, key: Nibbles, vt: Tree, slot: Item, child: Tree)
    requires Sound(h) && h.mode.Opened? && CanInsert(t, key) && vt.Val? && vt.v != [] && Like(h, Inserted(t, key, vt), child)
    requires Writes(h, st, slot, child)
    ensures slot != Str([])
  {
    assert child == Inserted(t, key, vt) && (Branches(child) || child == vt);
    if Branches(child) {
      assert |h.sha(NodeContent(h, child))| >= 32;
      assert NodeContent(h, child).L?;
    }
  }

  lemma {:induction false} InsertedSlot(h: Codec, cs: seq<Tree>, key: Nibbles, vt: Tree, ds: seq<Tree>, child: Tree)
    requires Node(Full(cs)) && IsKey(key) && key[0] < 17 && Insertable(cs[key[0]], key[1..])
    requires LikeAll(h, cs, ds) && Like(h, Inserted(cs[key[0]], key[1..], vt), child)
    ensures Like(h, Insert(Full(cs), key, vt), Full(ds[key[0] := child]))
  {
    var i := key[0];
    assert Insert(Full(cs), key, vt) == Full(cs[i := Insert(cs[i], key[1..], vt)]);
    LikeFull(h, cs[i := Insert(cs[i], key[1..], vt)], ds[i := child]);
  }

  /** The two-item case: replace the value, go on below, or split the key part. */
  method InsertShortNode(h: Codec, st: Store, n: Item, key: Nibbles, value: Item, ghost t: Tree, ghost vt: Tree)
    returns (st': Store, r: Item, ghost u: Tree)
    requires Sound(h) && IsNode(h, n, t) && Writable(h, t)
    requires t.Short? && Holds(h, st, t) && Writes(h, st, value, vt) && Node(t) && IsKey(key) && Unsplit(h, t, key, vt)
    ensures Keeps(h, st, st') && Writes(h, st', r, u) && !r.Byte? && Like(h, Insert(t, key, vt), u)
    decreases |key|, 2
  {
    var k, v := ReadShort(h, st, n, t);
    if k == key {
      PutShort(h, st, key, value, vt);
      var (st1, r1) := Put(h, st, Pair(key, value), false);
      return st1, r1, Short(key, vt);
    }
    InsertShort(t.k, t.c, key, vt);
    var m := Match(key, k);
    var st1, newHash;
    ghost var below;
    st1, newHash, below := InsertAlong(h, st, k, v, key, value, m, t.c, vt);
    if m == 0 {
      return st1, newHash, below;
    }
    st', r := PutBelow(h, st1, key, m, newHash, below);
    KeepsBoth(h, st, st1, st');
    u := Short(key[..m], below);
    InsertedShort(h, t.k, t.c, key, vt, m, below);
  }

  /** What comes after the common part of the key part and the key. */
  method InsertAlong(h: Codec, st: Store, k: Nibbles, v: Item, key: Nibbles, value: Item, m: nat,
                     ghost c: Tree, ghost vt: Tree)
    returns (st': Store, r: Item, ghost u: Tree)
    requires Sound(h) && Refers(h, st, v, c) && Writable(h, c) && Writes(h, st, value, vt)
    requires IsKey(key) && Node(Short(k, c)) && (IsPath(k) ==> !v.Byte?) && m < |key| && m <= |k|
    requires if m == |k| then IsPath(k) && Insertable(c, key[m..]) && Unsplit(h, c, key[m..], vt)
             else k[m] != key[m] && k[m] < 17 && key[m] < 17 && !h.mode.Opened?
    ensures Keeps(h, st, st') && Writes(h, st', r, u) && !r.Byte?
    ensures if m == |k| then Like(h, Insert(c, key[m..], vt), u) else Like(h, Split(k, c, key, vt, m), u)
    decreases |key|, 1
  {
    if m == |k| {
      st', r, u := InsertState(h, st, v, key[m..], value, c, vt);
    } else {
      st', r, u := SplitNodeAt(h, st, k, v, key, value, m, c, vt);
    }
  }

  method PutBelow(h: Codec, st: Store, key: Nibbles, m: nat, x: Item, ghost c: Tree) returns (st': Store, r: Item)
    requires Sound(h) && IsKey(key) && 0 < m < |key| && Writes(h, st, x, c) && !x.Byte?
    ensures Keeps(h, st, st') && Writes(h, st', r, Short(key[..m], c)) && !r.Byte?
  {
    assert IsPath(key[..m]);
    PutShort(h, st, key[..m], x, c);
    var (st1, r1) := Put(h, st, Pair(key[..m], x), false);
    return st1, r1;
  }

  lemma {:induction false} InsertedShort(h: Codec, k: Nibbles, c: Tree, key: Nibbles, vt: Tree, m: nat, below: Tree)
    requires Node(Short(k, c)) && IsKey(key) && k != key && m == Match(key, k) && m > 0
    requires m < |key| && (m == |k| ==> IsPath(k) && k < key && Insertable(c, key[m..]))
    requires m < |k| ==> k[m] < 17 && key[m] < 17
    requires if m == |k| then Like(h, Insert(c, key[m..], vt), below) else Like(h, Split(k, c, key, vt, m), below)
    ensures Like(h, Insert(Short(k, c), key, vt), Short(key[..m], below))
  {
    InsertShort(k, c, key, vt);
    if m == |k| {
      assert key[..m] == k;
      LikeShort(h, k, Insert(c, key[m..], vt), below);
    } else {
      LikeShort(h, key[..m], Split(k, c, key, vt, m), below);
    }
  }

  method SplitNodeAt(h: Codec, st: Store, k: Nibbles, v: Item, key: Nibbles, value: Item, m: nat,
                     ghost c: Tree, ghost vt: Tree)
    returns (st': Store, r: Item, ghost u: Tree)
    requires Sound(h) && Refers(h, st, v, c) && Writable(h, c) && Writes(h, st, value, vt)
    requires m < |k| && m < |key| && k[m] != key[m] && IsKey(key) && Node(Short(k, c)) && (IsPath(k) ==> !v.Byte?)
    requires !h.mode.Opened?
    ensures k[m] < 17 && key[m] < 17
    ensures Keeps(h, st, st') && Writes(h, st', r, u) && !r.Byte? && Like(h, Split(k, c, key, vt, m), u)
    decreases |key|, 0
  {
    if IsKey(k) { KeyTail(k, m); }
    KeyTail(key, m);
    ghost var d := FadeOf(v, c);
    Rewire(h, st, v, c);
    ghost var ut, vu;
    var st2, oldNode, newNode;
    st2, oldNode, newNode, ut, vu := InsertBoth(h, st, k[m + 1..], v, d, key[m + 1..], value, vt);
    assert oldNode.Byte? ==> k[m] == 16;
    assert newNode.Byte? ==> key[m] == 16;
    st', r := PutSplit(h, st2, k[m], oldNode, ut, key[m], newNode, vu);
    KeepsBoth(h, st, st2, st');
    u := Split(k, d, key, vt, m);
    LikeSplit(h, k, c, d, key, vt, m);
  }

  method InsertBoth(h: Codec, st: Store, k: Nibbles, v: Item, ghost d: Tree, key: Nibbles, value: Item, ghost vt: Tree)
    returns (st': Store, oldNode: Item, newNode: Item, ghost ut: Tree, ghost vu: Tree)
    requires Sound(h) && Writes(h, st, v, d) && Writes(h, st, value, vt) && PutWell(v, k) && PutWell(value, key)
    requires CanInsert(Empty, k) && CanInsert(Empty, key) && !h.mode.Opened?
    ensures Keeps(h, st, st') && ut == NewLeaf(k, d) && vu == NewLeaf(key, vt)
    ensures Writes(h, st', oldNode, ut) && (oldNode.Byte? ==> k == [] && v.Byte?)
    ensures Writes(h, st', newNode, vu) && (newNode.Byte? ==> key == [])
    decreases 0, 5
  {
    var st1;
    st1, oldNode, ut := InsertState(h, st, Str([]), k, v, Empty, d);
    RefersKept(h, st, st1, value, vt);
    st', newNode, vu := InsertState(h, st1, Str([]), key, value, Empty, vt);
    RefersKept(h, st1, st', oldNode, ut);
    KeepsBoth(h, st, st1, st');
  }

  method PutSplit(h: Codec, st: Store, i: nat, x: Item, ghost t: Tree, j: nat, y: Item, ghost u: Tree)
    returns (st': Store, r: Item)
    requires Sound(h) && i < 17 && j < 17 && Writes(h, st, x, t) && Writes(h, st, y, u)
    requires (x.Byte? ==> i == 16) && (y.Byte? ==> j == 16) && !h.mode.Opened?
    ensures Keeps(h, st, st') && Writes(h, st', r, Full(Blank()[i := t][j := u])) && !r.Byte?
  {
    var slots := EmptyStringSlice()[i := x][j := y];
    TwoSlots(h, st, i, x, t, j, y, u);
    PutFull(h, st, slots, Blank()[i := t][j := u]);
    var (st1, r1) := Put(h, st, List(slots), false);
    return st1, r1;
  }

  lemma {:induction false} LikeSplit(h: Codec, k: Nibbles, c: Tree, d: Tree, key: Nibbles, x: Tree, m: nat)
    requires m < |k| && m < |key| && k[m] < 17 && key[m] < 17 && Like(h, c, d)
    ensures Like(h, Split(k, c, key, x, m), Split(k, d, key, x, m))
  {
    LikeLeaf(h, k[m + 1..], c, d);
    LikeFull(h, Split(k, c, key, x, m).cs, Split(k, d, key, x, m).cs);
  }
}
