/** The write-back node cache of `monktrie/trie.go` over its database, and what it
    means for them to hold a tree. A node whose encoding is shorter than 32 bytes
    sits inside its parent; any other is stored under its hash.

    The database keeps an encoding as the content it stands for: `Rlp.ParseContent`
    says that decoding the encoding of a content gives `Rlp.Decoded` of it. */
module NodeStore {
  import opened Bytes
  import opened HexPrefix
  import opened PatriciaTree
  import opened Rlp

  /** What may be found in the cached values. `Built`: only what this run built, nothing
      loaded from the database. `Opened`: what was loaded, and nodes built from it that are
      not new branches; in none of their branches is the place of a value the Go string "",
      and at most `cleared` other slots are. `Read`: any mixture of what was built and loaded;
      the one-byte string 00 is loaded as the byte 0. `Faded`: also nodes built from loaded
      ones with a byte 0 in them, which encodes as the empty string, though it still reads
      as 00. */
  datatype Mode = Built | Opened(cleared: nat) | Read | Faded

  /** How nodes are addressed, by the content that is encoded: `sha` is the hash of
      the encoding and `inline` says that the encoding is short enough to sit in
      the parent. What is proved holds for any such pair that is `Sound`. The modes
      only matter to the claims: `mode` is that of all nodes that are used and `base`
      that of the nodes that are not dirty. */
  datatype Codec = Codec(sha: Content -> seq<byte>, inline: Content -> bool, ghost mode: Mode, ghost base: Mode)

  /** The codec of the source, for a hash of encodings. */
  function Thelonious(sha3: seq<byte> -> seq<byte>, ghost mode: Mode, ghost base: Mode): Codec {
    Codec(c => sha3(EncodeContent(c)), c => |EncodeContent(c)| < 32, mode, base)
  }

  /** The content has the empty string in place of some strings 00. */
  predicate Dims(c: Content, d: Content) {
    match c
    case S(s) => d == c || (s == [0] && d == S([]))
    case L(cs) => d.L? && |cs| == |d.cs| && forall i | 0 <= i < |cs| :: Dims(cs[i], d.cs[i])
  }

  function NoSlots(): seq<Content> {
    seq(17, _ => S([]))
  }

  lemma {:induction false} EmptySlotsLength(cs: seq<Content>)
    requires forall i | 0 <= i < |cs| :: cs[i] == S([])
    ensures |EncodeContents(cs)| == |cs|
  {
    if cs != [] { EmptySlotsLength(cs[1..]); }
  }

  /** Hashes are distinct and no shorter than 32 bytes; nodes with nothing in them are
      inline, and whether another is does not depend on strings 00 being there or not. */
  ghost predicate Sound(h: Codec) {
    && (forall c :: |h.sha(c)| >= 32)
    && (forall c, d :: h.sha(c) == h.sha(d) ==> c == d)
    && h.inline(L([])) && h.inline(L(NoSlots()))
    && (forall c, d :: Dims(c, d) ==> h.inline(c) == h.inline(d))
    && (h.base == Read || h.base == Faded)
  }

  lemma {:induction false} DimLength(c: Content, d: Content)
    requires Dims(c, d)
    ensures |EncodeContent(c)| == |EncodeContent(d)|
    decreases c, 1
  {
    match c
    case S(s) =>
    case L(cs) => DimLengths(cs, d.cs);
  }

  lemma {:induction false} DimLengths(cs: seq<Content>, ds: seq<Content>)
    requires |cs| == |ds| && forall i | 0 <= i < |cs| :: Dims(cs[i], ds[i])
    ensures |EncodeContents(cs)| == |EncodeContents(ds)|
    decreases cs, 0
  {
    if cs != [] {
      DimLength(cs[0], ds[0]);
      DimLengths(cs[1..], ds[1..]);
    }
  }

  /** With a hash function whose values are distinct and long enough, the codec of the
      source is sound. */
  lemma {:induction false} TheloniousSound(sha3: seq<byte> -> seq<byte>, mode: Mode, base: Mode)
    requires (base == Read || base == Faded) && forall e :: |sha3(e)| >= 32
    requires forall e, f :: sha3(e) == sha3(f) ==> e == f
    ensures Sound(Thelonious(sha3, mode, base))
  {
    var h := Thelonious(sha3, mode, base);
    forall c, d | h.sha(c) == h.sha(d) ensures c == d {
      EncodingPrefixFree(c, d);
    }
    forall c, d | Dims(c, d) ensures h.inline(c) == h.inline(d) {
      DimLength(c, d);
    }
    assert EncodeContents([]) == [];
    EmptySlotsLength(NoSlots());
  }

  datatype CacheNode = CacheNode(value: Item, dirty: bool)

  datatype Store = Store(nodes: map<seq<byte>, CacheNode>, db: map<seq<byte>, Content>, isDirty: bool)

  // ---- Reading Go values -------------------------------------------------------

  function Len(x: Item): nat {
    match x
    case List(items) => |items|
    case Str(s) => |s|
    case Blob(s) => |s|
    case Byte(_) => 1
    case Nil => 0
    case Int(n) => |BigBytes(Abs(n))|
    case Uint64(u) => 0
  }

  function Get(x: Item, i: nat): Item {
    if x.List? && i < |x.items| then x.items[i] else Nil
  }

  function StrOf(x: Item): seq<byte> {
    match x
    case Str(s) => s
    case Blob(s) => s
    case Byte(b) => if b < 0x80 then [b] else [0xc0 + b / 64, 0x80 + b % 64]
    case _ => []
  }

  // ---- The cache ------------------------------------------------------------------

  /** `PutValue`. */
  function Put(h: Codec, st: Store, v: Item, force: bool): (Store, Item) {
    var enc := Wire(v);
    if !h.inline(enc) || force then
      (st.(nodes := st.nodes[h.sha(enc) := CacheNode(v, true)], isDirty := true), Blob(h.sha(enc)))
    else (st, v)
  }

  function Load(st: Store, key: seq<byte>): Item {
    if key in st.db then Decoded(st.db[key]) else Nil
  }

  /** `Cache.Get`: a node that is not cached is loaded and cached. */
  function Fetch(st: Store, key: seq<byte>): (Store, Item) {
    if key in st.nodes then (st, st.nodes[key].value)
    else
      var v := Load(st, key);
      (st.(nodes := st.nodes[key := CacheNode(v, false)]), v)
  }

  /** `getNode`. A string shorter than 32 bytes is taken for an encoding. */
  function GetNode(st: Store, x: Item): (Store, Item) {
    if Get(x, 0) != Nil then (st, x)
    else
      var s := StrOf(x);
      if s == [] then (st, x)
      else if |s| < 32 then (st, match Parse(s) case Parsed(v, _) => v case Panic => Nil)
      else Fetch(st, s)
  }

  // ---- Holding a tree ----------------------------------------------------------------

  /** The value reads as the content. */
  predicate Stands(m: Mode, x: Item, c: Content) {
    match x
    case Str(s) => c == S(s)
    case Blob(s) => c == S(s) && (m == Built ==> s != [])
    case Byte(b) =>
      || (b < 0x80 && (m == Built ==> b > 0) && c == S([b]))
      || (m == Faded && b == 0 && c == S([]))
    case List(items) =>
      && c.L? && |c.cs| == |items|
      && (forall i | 0 <= i < |items| :: Stands(m, items[i], c.cs[i]))
      && (forall i | 0 <= i < |items| :: FadedHere(items[i], c.cs[i]) ==> ValuePlace(c.cs, i))
      && (m.Opened? && |items| == 17 ==> Stiff(items, m.cleared))
    case _ => false
  }

  /** How many of the first `n` items are the Go string "". */
  function Blanks(items: seq<Item>, n: nat): nat
    requires n <= |items|
  {
    if n == 0 then 0 else Blanks(items, n - 1) + if items[n - 1] == Str([]) then 1 else 0
  }

  /** A branch as it is loaded, but for `d` slots that were cleared since. */
  predicate Stiff(items: seq<Item>, d: nat)
    requires |items| == 17
  {
    items[16] != Str([]) && Blanks(items, 16) <= d
  }

  /** A byte 0 that would encode as the empty string. */
  predicate FadedHere(x: Item, c: Content) {
    x == Byte(0) && c == S([])
  }

  /** Where a node has the value of a key that ends there. */
  predicate ValuePlace(cs: seq<Content>, i: nat) {
    || (|cs| == 17 && i == 16)
    || (|cs| == 2 && i == 1 && cs[0].S? && cs[0].s != [] && cs[0].s[0] >= 0x20)
  }

  predicate Weaker(m: Mode, m': Mode) {
    || m == m' || m' == Faded || (m' == Read && m != Faded)
    || (m.Opened? && m'.Opened? && m.cleared <= m'.cleared)
  }

  lemma {:induction false} StandsWeaker(m: Mode, m': Mode, x: Item, c: Content)
    requires Weaker(m, m') && Stands(m, x, c)
    ensures Stands(m', x, c)
  {
    if x.List? {
      forall i | 0 <= i < |x.items| ensures Stands(m', x.items[i], c.cs[i]) {
        StandsWeaker(m, m', x.items[i], c.cs[i]);
      }
    }
  }

  /** What is loaded reads as what was stored. */
  lemma {:induction false} DecodedStands(m: Mode, c: Content)
    requires m != Built
    ensures Stands(m, Decoded(c), c)
  {
    if c.L? {
      forall i | 0 <= i < |c.cs| ensures Stands(m, DecodedAll(c.cs)[i], c.cs[i]) {
        DecodedStands(m, c.cs[i]);
      }
      NoBlanks(c.cs, |c.cs|);
      if |c.cs| == 17 { NoBlanks(c.cs, 16); }
    }
  }

  /** Nothing is loaded as the Go string "". */
  lemma {:induction false} NoBlanks(cs: seq<Content>, n: nat)
    requires n <= |cs|
    ensures Blanks(DecodedAll(cs), n) == 0
  {
    if n > 0 { NoBlanks(cs, n - 1); }
  }

  /** What a parent node or the root holds for a tree. */
  function Ref(h: Codec, t: Tree): Content
    decreases t, 1
  {
    match t
    case Empty => S([])
    case Void => L([])
    case Val(v) => S(v)
    case _ =>
      var n := NodeContent(h, t);
      if !h.inline(n) then S(h.sha(n)) else n
  }

  function NodeContent(h: Codec, t: Tree): Content
    decreases t, 0
  {
    match t
    case Short(k, c) => L([S(if k == [] then [] else CompactEncode(k)), Ref(h, c)])
    case Full(cs) => L(Refs(h, cs))
    case _ => L([])
  }

  function Refs(h: Codec, cs: seq<Tree>): (rs: seq<Content>)
    ensures |rs| == |cs|
    ensures forall i | 0 <= i < |cs| :: rs[i] == Ref(h, cs[i])
    decreases cs, 0
  {
    if cs == [] then [] else [Ref(h, cs[0])] + Refs(h, cs[1..])
  }

  /** Reading `key` gives a value that stands for `n`. */
  ghost predicate Has(h: Codec, st: Store, key: seq<byte>, n: Content) {
    if key in st.nodes then Stands(h.mode, st.nodes[key].value, n)
    else h.mode != Built && key in st.db && st.db[key] == n
  }

  /** Every node of the tree that is not inside its parent can be read. */
  ghost predicate Holds(h: Codec, st: Store, t: Tree) {
    match t
    case Empty => true
    case Void => true
    case Val(_) => true
    case Short(_, c) => Reachable(h, st, t) && Holds(h, st, c)
    case Full(cs) => Reachable(h, st, t) && forall i | 0 <= i < |cs| :: Holds(h, st, cs[i])
  }

  ghost predicate Reachable(h: Codec, st: Store, t: Tree) {
    var n := NodeContent(h, t);
    !h.inline(n) ==> Has(h, st, h.sha(n), n)
  }

  /** The item reads as a reference to the tree. */
  ghost predicate Refers(h: Codec, st: Store, x: Item, t: Tree) {
    Stands(h.mode, x, Ref(h, t)) && Holds(h, st, t)
  }

  /** It also encodes as one. */
  ghost predicate Writes(h: Codec, st: Store, x: Item, t: Tree) {
    Refers(h, st, x, t) && Wire(x) == Ref(h, t)
  }

  predicate IsString(x: Item) {
    x.Str? || x.Blob?
  }

  /** The root is put by force: it is behind its hash however short it is. A root put for
      an empty list is read as a branch with nothing in it. */
  ghost predicate IsRoot(h: Codec, st: Store, x: Item, t: Tree) {
    && IsString(x)
    && match t {
         case Empty => StrOf(x) == []
         case Void => false
         case Val(_) => false
         case _ =>
           && Holds(h, st, t)
           && (RootAt(h, st, x, NodeContent(h, t)) || (!h.mode.Opened? && IsBlank(t) && RootAt(h, st, x, L([]))))
       }
  }

  ghost predicate RootAt(h: Codec, st: Store, x: Item, n: Content) {
    StrOf(x) == h.sha(n) && Has(h, st, h.sha(n), n)
  }

  ghost predicate Points(h: Codec, st: Store, x: Item, t: Tree) {
    Refers(h, st, x, t) || IsRoot(h, st, x, t)
  }

  /** Whatever could be read still can be. */
  ghost predicate Covers(h: Codec, st: Store, h': Codec, st': Store) {
    forall n :: Has(h, st, h.sha(n), n) ==> Has(h', st', h.sha(n), n)
  }

  /** A cached node is either new, under its own hash, or what the database has. */
  ghost predicate CacheOk(h: Codec, st: Store) {
    && (forall k | k in st.db :: k == h.sha(st.db[k]))
    && (forall k | k in st.nodes :: NodeOk(h, st.db, k, st.nodes[k]))
    && (!st.isDirty ==> forall k | k in st.nodes :: !st.nodes[k].dirty)
  }

  ghost predicate NodeOk(h: Codec, db: map<seq<byte>, Content>, k: seq<byte>, n: CacheNode) {
    if n.dirty then Stands(h.mode, n.value, Wire(n.value)) && k == h.sha(Wire(n.value))
    else if k in db then Stands(h.base, n.value, db[k])
    else n.value == Nil
  }

  ghost predicate Keeps(h: Codec, st: Store, st': Store) {
    && st'.db == st.db
    && Covers(h, st, h, st')
    && (CacheOk(h, st) ==> CacheOk(h, st'))
  }

  /** The same codec in other modes. */
  ghost predicate SameCodec(h: Codec, h': Codec) {
    h' == h.(mode := h'.mode, base := h'.base)
  }

  lemma {:induction false} SameRef(h: Codec, h': Codec, t: Tree)
    requires SameCodec(h, h')
    ensures Ref(h', t) == Ref(h, t) && NodeContent(h', t) == NodeContent(h, t)
    decreases t
  {
    match t
    case Empty =>
    case Void =>
    case Val(_) =>
    case Short(_, c) => SameRef(h, h', c);
    case Full(cs) =>
      forall i | 0 <= i < |cs| ensures Refs(h', cs)[i] == Refs(h, cs)[i] {
        SameRef(h, h', cs[i]);
      }
      assert Refs(h', cs) == Refs(h, cs);
  }

  lemma {:induction false} HoldsKept(h: Codec, st: Store, h': Codec, st': Store, t: Tree)
    requires SameCodec(h, h') && Covers(h, st, h', st') && Holds(h, st, t)
    ensures Holds(h', st', t)
    decreases t
  {
    SameRef(h, h', t);
    match t
    case Empty =>
    case Void =>
    case Val(_) =>
    case Short(_, c) => HoldsKept(h, st, h', st', c);
    case Full(cs) =>
      forall i | 0 <= i < |cs| ensures Holds(h', st', cs[i]) {
        HoldsKept(h, st, h', st', cs[i]);
      }
  }

  lemma {:induction false} LoadOk(h: Codec, st: Store, key: seq<byte>)
    requires Sound(h)
    ensures NodeOk(h, st.db, key, CacheNode(Load(st, key), false))
  {
    if key in st.db { DecodedStands(h.base, st.db[key]); }
  }

  /** Reading a key, cached or not, keeps the store as it was. */
  lemma {:induction false} FetchKeeps(h: Codec, st: Store, key: seq<byte>)
    requires Sound(h)
    ensures Keeps(h, st, Fetch(st, key).0)
  {
    var st' := Fetch(st, key).0;
    LoadOk(h, st, key);
    forall n | Has(h, st, h.sha(n), n) ensures Has(h, st', h.sha(n), n) {
      if h.sha(n) == key && key !in st.nodes { DecodedStands(h.mode, n); }
    }
  }

  lemma {:induction false} FetchFinds(h: Codec, st: Store, n: Content)
    requires Has(h, st, h.sha(n), n)
    ensures Stands(h.mode, Fetch(st, h.sha(n)).1, n)
  {
    if h.sha(n) !in st.nodes { DecodedStands(h.mode, n); }
  }

  lemma {:induction false} PutKeeps(h: Codec, st: Store, v: Item, force: bool)
    requires Sound(h) && Stands(h.mode, v, Wire(v))
    ensures var (st', r) := Put(h, st, v, force);
            && Keeps(h, st, st') && Stands(h.mode, r, Wire(r))
            && (!h.inline(Wire(v)) || force ==>
                  r == Blob(h.sha(Wire(v))) && Has(h, st', h.sha(Wire(v)), Wire(v)))
  {
  }

  // ---- Writing back ----------------------------------------------------------------------

  /** `Commit`: dirty nodes go to the database; a cache of more than 200 nodes is emptied. */
  function Commit(st: Store): Store {
    if !st.isDirty then st
    else
      var clean := map k | k in st.nodes :: st.nodes[k].(dirty := false);
      Store(if |st.nodes| > 200 then map[] else clean, st.db + Pending(st), false)
  }

  /** What the dirty nodes write. */
  function Pending(st: Store): map<seq<byte>, Content> {
    map k | k in st.nodes && st.nodes[k].dirty :: Wire(st.nodes[k].value)
  }

  /** `Cache.Undo`: dirty nodes are forgotten. */
  function Undo(st: Store): Store {
    Store(map k | k in st.nodes && !st.nodes[k].dirty :: st.nodes[k], st.db, false)
  }

  ghost function Cleaned(st: Store, todo: set<seq<byte>>): map<seq<byte>, CacheNode> {
    map k | k in st.nodes :: if k in todo then st.nodes[k] else st.nodes[k].(dirty := false)
  }

  ghost function Written(st: Store, todo: set<seq<byte>>): map<seq<byte>, Content> {
    map k | k in Pending(st) && k !in todo :: Pending(st)[k]
  }

  lemma CommitStep(st: Store, todo: set<seq<byte>>, key: seq<byte>)
    requires key in todo && key in st.nodes
    ensures Cleaned(st, todo)[key] == st.nodes[key]
    ensures Cleaned(st, todo - {key}) == Cleaned(st, todo)[key := st.nodes[key].(dirty := false)]
    ensures st.nodes[key].dirty ==>
              st.db + Written(st, todo - {key}) == (st.db + Written(st, todo))[key := Wire(st.nodes[key].value)]
    ensures !st.nodes[key].dirty ==>
              && Cleaned(st, todo - {key}) == Cleaned(st, todo)
              && st.db + Written(st, todo - {key}) == st.db + Written(st, todo)
  {
    if st.nodes[key].dirty {
      assert key in Pending(st);
      assert Written(st, todo - {key}) == Written(st, todo)[key := Pending(st)[key]];
    } else {
      assert key !in Pending(st);
      assert Written(st, todo - {key}) == Written(st, todo);
    }
  }

  lemma CommitEnds(st: Store)
    ensures st.db + Written(st, st.nodes.Keys) == st.db && Cleaned(st, st.nodes.Keys) == st.nodes
    ensures st.isDirty ==>
              Commit(st) == Store(if |Cleaned(st, {})| > 200 then map[] else Cleaned(st, {}), st.db + Written(st, {}), false)
  {
    assert Written(st, {}) == Pending(st);
    var c := Cleaned(st, {});
    assert c.Keys == st.nodes.Keys;
    assert |c| == |c.Keys| && |st.nodes| == |st.nodes.Keys|;
  }

  /** The same as loops over the cached nodes. */
  method CommitNodes(st: Store) returns (st': Store)
    ensures st' == Commit(st)
  {
    if !st.isDirty { return st; }
    var nodes, db, todo := st.nodes, st.db, st.nodes.Keys;
    CommitEnds(st);
    while todo != {}
      invariant todo <= st.nodes.Keys && nodes == Cleaned(st, todo) && db == st.db + Written(st, todo)
      decreases |todo|
    {
      var key :| key in todo;
      CommitStep(st, todo, key);
      if nodes[key].dirty {
        db := db[key := Wire(nodes[key].value)];
        nodes := nodes[key := nodes[key].(dirty := false)];
      }
      todo := todo - {key};
    }
    return Store(if |nodes| > 200 then map[] else nodes, db, false);
  }

  method UndoNodes(st: Store) returns (st': Store)
    ensures st' == Undo(st)
  {
    var nodes, todo := st.nodes, st.nodes.Keys;
    while todo != {}
      invariant todo <= st.nodes.Keys
      invariant nodes == map k | k in st.nodes && (k in todo || !st.nodes[k].dirty) :: st.nodes[k]
      decreases |todo|
    {
      var key :| key in todo;
      if nodes[key].dirty { nodes := nodes - {key}; }
      todo := todo - {key};
    }
    return Store(nodes, st.db, false);
  }

  /** The database on its own. */
  function Persisted(st: Store): Store {
    Store(map[], st.db, false)
  }

  /** The database is read in `Read` mode. */
  ghost function Stored(h: Codec): Codec {
    h.(mode := Read)
  }

  /** After a commit the database alone answers for every node that could be read,
      so emptying the cache loses nothing. */
  lemma {:induction false} CommitPersists(h: Codec, st: Store)
    requires Sound(h) && CacheOk(h, st)
    ensures Covers(h, st, Stored(h), Persisted(Commit(st)))
  {
    var st' := Commit(st);
    forall n | Has(h, st, h.sha(n), n) ensures h.sha(n) in st'.db && st'.db[h.sha(n)] == n {
      var k := h.sha(n);
      if k in st.nodes {
        assert NodeOk(h, st.db, k, st.nodes[k]);
        if st.nodes[k].dirty { assert k in Pending(st); }
      }
    }
  }

  /** The cache is in order afterwards, with what was new now backed by the database. */
  lemma {:induction false} CommitOk(h: Codec, st: Store, base: Mode)
    requires Sound(h) && CacheOk(h, st) && (base == Read || base == Faded) && Weaker(h.base, base) && Weaker(h.mode, base)
    ensures CacheOk(h.(mode := base, base := base), Commit(st))
  {
    var h', st' := h.(mode := base, base := base), Commit(st);
    forall k | k in st'.db ensures k == h.sha(st'.db[k]) {
      if k in st.nodes { assert NodeOk(h, st.db, k, st.nodes[k]); }
    }
    forall k | k in st'.nodes ensures NodeOk(h', st'.db, k, st'.nodes[k]) {
      assert NodeOk(h, st.db, k, st.nodes[k]);
      if st.isDirty && st.nodes[k].dirty {
        assert k in Pending(st);
        StandsWeaker(h.mode, base, st.nodes[k].value, Pending(st)[k]);
      }
      if !st.nodes[k].dirty && k in st.db { StandsWeaker(h.base, base, st.nodes[k].value, st.db[k]); }
    }
  }

  /** A commit keeps what could be read, in a mode that admits what was loaded. */
  lemma {:induction false} CommitCovers(h: Codec, st: Store, h': Codec)
    requires Sound(h) && CacheOk(h, st) && SameCodec(h, h') && h'.mode != Built && Weaker(h.mode, h'.mode)
    ensures Covers(h, st, h', Commit(st))
  {
    CommitPersists(h, st);
    var st' := Commit(st);
    forall n | Has(h, st, h.sha(n), n) ensures Has(h', st', h.sha(n), n) {
      var k := h.sha(n);
      assert Has(Stored(h), Persisted(st'), k, n);
      if k in st.nodes { StandsWeaker(h.mode, h'.mode, st.nodes[k].value, n); }
    }
  }

  /** After an undo every node the database has can be read. */
  lemma {:induction false} UndoRestores(h: Codec, st: Store)
    requires Sound(h) && CacheOk(h, st)
    ensures Covers(Stored(h), Persisted(st), h.(mode := h.base), Undo(st)) && CacheOk(h.(mode := h.base), Undo(st))
  {
    var st' := Undo(st);
    forall n | Has(Stored(h), Persisted(st), h.sha(n), n) ensures Has(h.(mode := h.base), st', h.sha(n), n) {
      if h.sha(n) in st'.nodes { assert NodeOk(h, st.db, h.sha(n), st.nodes[h.sha(n)]); }
    }
    forall k | k in st'.nodes ensures NodeOk(h.(mode := h.base), st'.db, k, st'.nodes[k]) {
      assert NodeOk(h, st.db, k, st.nodes[k]);
    }
  }

  /** What can be read in a mode can be read in a weaker one. */
  lemma {:induction false} WeakerCovers(h: Codec, st: Store, mode: Mode)
    requires Weaker(h.mode, mode)
    ensures Covers(h, st, h.(mode := mode), st) && (CacheOk(h, st) ==> CacheOk(h.(mode := mode), st))
  {
    var h' := h.(mode := mode);
    forall n | Has(h, st, h.sha(n), n) ensures Has(h', st, h.sha(n), n) {
      if h.sha(n) in st.nodes { StandsWeaker(h.mode, mode, st.nodes[h.sha(n)].value, n); }
    }
    if CacheOk(h, st) {
      forall k | k in st.nodes ensures NodeOk(h', st.db, k, st.nodes[k]) {
        assert NodeOk(h, st.db, k, st.nodes[k]);
        if st.nodes[k].dirty { StandsWeaker(h.mode, mode, st.nodes[k].value, Wire(st.nodes[k].value)); }
      }
    }
  }

  /** `Trie.Copy` copies the nodes, dirty ones included, but not the dirty flag. */
  function CopyOf(st: Store): Store {
    st.(isDirty := false)
  }

  /** A copy is in order exactly when nothing was dirty; otherwise a commit of the copy
      writes nothing. */
  lemma {:induction false} CopyLosesDirt(h: Codec, st: Store)
    requires CacheOk(h, st)
    ensures CacheOk(h, CopyOf(st)) <==> Pending(st) == map[]
    ensures Commit(CopyOf(st)) == CopyOf(st)
  {
    if k :| k in st.nodes && st.nodes[k].dirty {
      assert k in Pending(st);
    }
    if Pending(st) == map[] {
      forall k | k in st.nodes ensures !st.nodes[k].dirty { assert k !in Pending(st); }
    }
  }
}
