/** The `Trie` object of `monktrie/trie.go`: a root over a cache over a database. */
module TrieObject {
  import opened Bytes
  import opened HexPrefix
  import opened PatriciaTree
  import opened Rlp
  import opened NodeStore
  import opened NodeOps
  import opened NodeDelete
  import opened NodeIterator
  import opened TrieHistory

  /** A value as a leaf: the empty string is an empty slot. */
  function Slot(v: seq<byte>): (x: Tree)
    ensures IsSlot(x) && Lookup(x, []) == v
  {
    if v == [] then Empty else Val(v)
  }

  /** The tree of a root that is put for `t`. */
  function Rooted(t: Tree): Tree {
    if t.Void? then Full(Blank()) else t
  }

  lemma {:induction false} RootedLookup(t: Tree, q: Nibbles)
    ensures Lookup(Rooted(t), q) == Lookup(t, q) && (Node(t) ==> Node(Rooted(t)))
  {
  }

  /** Unless it is that of a branch with nothing in it, a root is the hash of its tree. */
  lemma {:induction false} RootIs(h: Codec, st: Store, x: Item, t: Tree)
    requires IsRoot(h, st, x, t) && !IsBlank(t)
    ensures StrOf(x) == RootOf(h, t)
  {
  }

  /** Roots are equal only for equal trees. */
  lemma {:induction false} RootInjective(h: Codec, st: Store, x: Item, t: Tree, st': Store, y: Item, u: Tree)
    requires Sound(h) && Node(t) && Node(u) && IsRoot(h, st, x, t) && IsRoot(h, st', y, u) && StrOf(x) == StrOf(y)
    ensures t == u
  {
    if t.Empty? || u.Empty? {
      assert |h.sha(NodeContent(h, t))| >= 32 && |h.sha(NodeContent(h, u))| >= 32 && |h.sha(L([]))| >= 32;
    } else {
      NodeSize(h, t);
      NodeSize(h, u);
      if IsBlank(t) && IsBlank(u) {
        assert t.cs == u.cs;
      } else {
        NodeContentInjective(h, t, u);
      }
    }
  }

  lemma {:induction false} RootKept(h: Codec, st: Store, h': Codec, st': Store, x: Item, t: Tree)
    requires SameCodec(h, h') && Covers(h, st, h', st') && IsRoot(h, st, x, t)
    requires h'.mode.Opened? ==> h.mode.Opened? || !IsBlank(t)
    ensures IsRoot(h', st', x, t)
  {
    HoldsKept(h, st, h', st', t);
    SameRef(h, h', t);
    assert forall n :: RootAt(h, st, x, n) ==> RootAt(h', st', x, n);
  }

  /** The end of `Update` and `Delete`: a node that came back as a list is put by force. */
  method PutRoot(h: Codec, st: Store, r: Item, ghost t: Tree) returns (st': Store, root: Item)
    requires Sound(h) && (Writes(h, st, r, t) || IsRoot(h, st, r, t)) && Node(t) && !r.Byte? && (t.Void? ==> !h.mode.Opened?)
    ensures Keeps(h, st, st') && IsRoot(h, st', root, Rooted(t))
  {
    if r.Str? || r.Blob? {
      StringRoot(h, st, r, t);
      return st, r;
    }
    ListRoot(h, st, r, t);
    var (st1, r1) := Put(h, st, r, true);
    return st1, r1;
  }

  lemma {:induction false} StringRoot(h: Codec, st: Store, r: Item, t: Tree)
    requires Sound(h) && (Writes(h, st, r, t) || IsRoot(h, st, r, t)) && Node(t) && IsString(r)
    ensures IsRoot(h, st, r, t) && Rooted(t) == t
  {
    if Branches(t) { NodeSize(h, t); }
  }

  /** What is no string is the node itself. */
  lemma {:induction false} ListRoot(h: Codec, st: Store, r: Item, t: Tree)
    requires Sound(h) && (Writes(h, st, r, t) || IsRoot(h, st, r, t)) && Node(t) && !IsString(r) && !r.Byte?
    requires t.Void? ==> !h.mode.Opened?
    ensures var (st', root) := Put(h, st, r, true); Keeps(h, st, st') && IsRoot(h, st', root, Rooted(t))
  {
    PutKeeps(h, st, r, true);
    var (st', root) := Put(h, st, r, true);
    if t.Void? {
      BlankHeld(h, st');
    } else {
      assert Wire(r) == NodeContent(h, t);
      HoldsKept(h, st, h, st', t);
    }
  }

  lemma {:induction false} BlankHeld(h: Codec, st: Store)
    requires Sound(h)
    ensures Holds(h, st, Full(Blank())) && IsBlank(Full(Blank()))
  {
    assert Refs(h, Blank()) == NoSlots();
  }

  /** Nodes built from loaded ones that hold a value 00 are no longer as they are read. */
  ghost predicate Fading(h: Codec, t: Tree) {
    (h.mode == Read || h.mode.Opened?) && !ZeroFree(t)
  }

  /** The mode in which an update is made: a new branch is not as one that was loaded. */
  ghost function UpdateMode(h: Codec, t: Tree, key: seq<byte>, value: seq<byte>): Mode
    requires Node(t)
  {
    if Fading(h, t) then Faded
    else if h.mode.Opened? && (value == [] || Splits(t, KeyOf(key))) then Read
    else h.mode
  }

  /** The mode in which a delete is made: one more slot may be cleared. */
  ghost function DeleteMode(h: Codec, t: Tree, key: seq<byte>): Mode {
    if Fading(h, t) then Faded
    else if h.mode.Opened? then if Plain(t, |KeyOf(key)|) then Opened(h.mode.cleared + 1) else Read
    else h.mode
  }

  ghost function SyncMode(h: Codec): Mode {
    if h.mode == Faded then Faded else Read
  }

  lemma {:induction false} Weakened(h: Codec, st: Store, x: Item, t: Tree, mode: Mode)
    requires Sound(h) && CacheOk(h, st) && IsRoot(h, st, x, t) && Weaker(h.mode, mode)
    ensures var h' := h.(mode := mode);
            Sound(h') && SameCodec(h, h') && CacheOk(h', st) && IsRoot(h', st, x, t)
  {
    WeakerCovers(h, st, mode);
    RootKept(h, st, h.(mode := mode), st, x, t);
  }

  lemma {:induction false} UpdateReadied(h: Codec, st: Store, x: Item, t: Tree, key: seq<byte>, value: seq<byte>)
    requires Sound(h) && CacheOk(h, st) && Rests(h, st, x, t)
    ensures var h' := h.(mode := UpdateMode(h, t, key, value));
            && Sound(h') && SameCodec(h, h') && CacheOk(h', st) && Rests(h', st, x, t)
            && Writable(h', t) && (h'.mode.Opened? ==> value != [] && !Splits(t, KeyOf(key)))
            && (h'.mode != Faded ==> h.mode != Faded)
  {
    Weakened(h, st, x, t, UpdateMode(h, t, key, value));
  }

  lemma {:induction false} DeleteReadied(h: Codec, st: Store, x: Item, t: Tree, key: seq<byte>)
    requires Sound(h) && CacheOk(h, st) && Rests(h, st, x, t)
    ensures var h' := h.(mode := DeleteMode(h, t, key));
            && Sound(h') && SameCodec(h, h') && CacheOk(h', st) && Rests(Prev(h'), st, x, t) && Rests(h', st, x, t)
            && Writable(h', t) && Clearable(h', t, KeyOf(key))
  {
    var h' := h.(mode := DeleteMode(h, t, key));
    Weakened(h, st, x, t, DeleteMode(h, t, key));
    PrevOf(h, t, key);
  }

  lemma {:induction false} PrevOf(h: Codec, t: Tree, key: seq<byte>)
    ensures var h' := h.(mode := DeleteMode(h, t, key));
            Prev(h') == (if h'.mode.Opened? then h else h') && Writable(h', t) && Clearable(h', t, KeyOf(key))
  {
  }

  /** The cache is in order, and the database alone holds the tree of a root. */
  ghost predicate Recovers(h: Codec, st: Store, x: Item, t: Tree) {
    && Sound(h) && CacheOk(h, st) && (h.mode != Faded ==> h.base == Read)
    && Node(t) && IsRoot(Stored(h), Persisted(st), x, t)
    && (h.base != Faded ==> Bytewise(t))
  }

  /** The root stands for the tree. */
  ghost predicate Rests(h: Codec, st: Store, x: Item, t: Tree) {
    Node(t) && IsRoot(h, st, x, t) && (h.mode != Faded ==> Bytewise(t))
  }

  lemma {:induction false} RecoversStill(h: Codec, st: Store, h': Codec, st': Store, x: Item, t: Tree)
    requires Recovers(h, st, x, t) && SameCodec(h, h') && h'.base == h.base && st'.db == st.db
    requires CacheOk(h', st') && (h'.mode != Faded ==> h'.base == Read)
    ensures Recovers(h', st', x, t)
  {
    assert Stored(h') == Stored(h) && Persisted(st') == Persisted(st);
  }

  lemma {:induction false} SyncOk(h: Codec, st: Store, x: Item, t: Tree)
    requires Sound(h) && CacheOk(h, st) && (h.mode != Faded ==> h.base == Read) && Rests(h, st, x, t)
    ensures var h' := h.(mode := SyncMode(h), base := SyncMode(h));
            Recovers(h', Commit(st), x, t) && Rests(h', Commit(st), x, t)
  {
    var m := SyncMode(h);
    var h' := h.(mode := m, base := m);
    CommitOk(h, st, m);
    CommitCovers(h, st, h');
    RootKept(h, st, h', Commit(st), x, t);
    CommitPersists(h, st);
    CoversStored(h, st, h', Persisted(Commit(st)));
    RootKept(h, st, Stored(h'), Persisted(Commit(st)), x, t);
  }

  lemma {:induction false} CoversStored(h: Codec, st: Store, h': Codec, st': Store)
    requires Covers(h, st, Stored(h), st')
    ensures Covers(h, st, Stored(h'), st')
  {
    forall n | Has(h, st, h.sha(n), n) ensures Has(Stored(h'), st', h.sha(n), n) {
      assert Has(Stored(h), st', h.sha(n), n);
    }
  }

  lemma {:induction false} UndoOk(h: Codec, st: Store, x: Item, t: Tree)
    requires Recovers(h, st, x, t)
    ensures var h' := h.(mode := h.base);
            Recovers(h', Undo(st), x, t) && Rests(h', Undo(st), x, t)
  {
    var h' := h.(mode := h.base);
    UndoRestores(h, st);
    RootKept(Stored(h), Persisted(st), h', Undo(st), x, t);
    RecoversStill(h, st, h', Undo(st), x, t);
  }

  lemma {:induction false} ValueWrites(h: Codec, st: Store, value: seq<byte>)
    ensures Writes(h, st, Str(value), Slot(value))
  {
  }

  /** What an update comes to: the key has the value and every other is as it was. */
  ghost predicate Updates(h: Codec, t: Tree, key: seq<byte>, value: seq<byte>, u: Tree) {
    && Insertable(t, KeyOf(key)) && Like(h, Insert(t, KeyOf(key), Slot(value)), u)
    && forall s :: Same(h, if s == key then value else Lookup(t, KeyOf(s)), Lookup(u, KeyOf(s)))
  }

  method UpdateRoot(h: Codec, st: Store, root: Item, key: seq<byte>, value: seq<byte>, ghost t: Tree)
    returns (st': Store, root': Item, ghost u: Tree)
    requires Sound(h) && Rests(h, st, root, t) && Writable(h, t)
    requires h.mode.Opened? ==> value != [] && !Splits(t, KeyOf(key))
    ensures Keeps(h, st, st') && Rests(h, st', root', u)
    ensures Updates(h, t, key, value, u)
  {
    var k := CompactHexDecode(key);
    var st1, r;
    ValueWrites(h, st, value);
    st1, r, u := InsertState(h, st, root, k, Str(value), t, Slot(value));
    RootIsNode(h, u, t, k, Slot(value));
    st', root' := PutRoot(h, st1, r, u);
    KeepsBoth(h, st, st1, st');
    Updated(h, t, key, value, u);
  }

  /** What a delete of `key` from `t` comes to: it panics exactly on an overrun and is then
      without effect; done, it removes the key and nothing else; a payload is dropped only
      where that can be told beforehand, exactly then if nothing was loaded, and not at all
      if the nodes are as they were loaded. */
  ghost predicate Deletes(h: Codec, t: Tree, key: seq<byte>, room: nat, status: Status, u: Tree) {
    && Insertable(t, KeyOf(key))
    && (status == Panicked <==> Overruns(t, KeyOf(key), room))
    && (status == Panicked ==> u == t)
    && (status == Done ==>
          forall s :: Same(h, if s == key then [] else Lookup(t, KeyOf(s)), Lookup(u, KeyOf(s))))
    && (status == Dropped ==> CanDrop(h, t, KeyOf(key)))
    && (h.mode != Faded && status != Panicked ==> LeftAs(h, t, KeyOf(key), u))
    && (h.mode == Built && status != Panicked ==>
          && u == Rooted(Deleted(h, t, KeyOf(key)))
          && (status == Dropped <==> Drops(h, t, KeyOf(key))))
    && (h.mode.Opened? && status != Panicked ==>
          status == Done && (h.mode.cleared < 16 ==> u == Kept(t, KeyOf(key))))
  }

  /** The tree is that of a root for one of those that a delete can leave. */
  ghost predicate LeftAs(h: Codec, t: Tree, key: Nibbles, u: Tree)
    requires Insertable(t, key)
  {
    u in LeftOver(h, t, key) || (Void in LeftOver(h, t, key) && u == Rooted(Void))
  }

  method DeleteRoot(h: Codec, st: Store, root: Item, key: seq<byte>, tail: Nibbles, ghost t: Tree)
    returns (st': Store, root': Item, status: Status, ghost u: Tree)
    requires Sound(h) && Rests(Prev(h), st, root, t) && Rests(h, st, root, t) && Writable(h, t) && Clearable(h, t, KeyOf(key))
    ensures Keeps(h, st, st') && Rests(h, st', root', u)
    ensures Deletes(h, t, key, |tail|, status, u) && (status == Panicked ==> root' == root)
  {
    var k := CompactHexDecode(key);
    var st1, r;
    st1, r, status, u := DeleteState(h, st, root, k, tail, t);
    RootKept(h, st, h, st1, root, t);
    if status == Panicked { return st1, root, status, t; }
    st', root' := PutRoot(h, st1, r, u);
    KeepsBoth(h, st, st1, st');
    DeletedKeys(h, t, key, |tail|, status, u);
    u := Rooted(u);
  }

  class Trie {
    var h: Codec
    var cache: Store
    var root: Item
    var prevRoot: Item
    ghost var tree: Tree
    ghost var prevTree: Tree

    ghost predicate Recoverable()
      reads this
    {
      Recovers(h, cache, prevRoot, prevTree)
    }

    ghost predicate Valid()
      reads this
    {
      Recoverable() && Rests(h, cache, root, tree)
    }

    /** Nothing was loaded, and the first `i` updates of a run were made. */
    ghost predicate Grown(h: Codec, ops: seq<Binding>, i: nat)
      reads this
    {
      && Valid() && SameCodec(h, this.h) && this.h.mode == Built
      && (NonEmpty(ops) && i <= |ops| ==> tree == UpdateAll(Empty, ops[..i]))
    }

    /** What only a `Sync` changes. */
    twostate predicate SyncedAsBefore()
      reads this
    {
      && SameCodec(old(h), h) && h.base == old(h.base) && cache.db == old(cache.db)
      && prevTree == old(prevTree) && prevRoot == old(prevRoot)
    }

    /** `New`: an empty cache over a database of nodes that holds the tree of the root.
        A trie that starts empty holds only what this run builds. */
    constructor (h: Codec, db: map<seq<byte>, Content>, root: Item, ghost t: Tree)
      requires Sound(h) && h.base == Read
      requires h.mode == Read || (h.mode == Built && t.Empty?) || (h.mode == Opened(0) && !IsBlank(t))
      requires forall k | k in db :: k == h.sha(db[k])
      requires Node(t) && Bytewise(t) && IsRoot(Stored(h), Store(map[], db, false), root, t)
      ensures Valid() && this.h == h && tree == prevTree == t && cache == Store(map[], db, false) && this.root == root
    {
      this.h := h;
      this.cache := Store(map[], db, false);
      this.root, this.prevRoot := root, root;
      this.tree, this.prevTree := t, t;
      ghost var st := Store(map[], db, false);
      if h.mode != Built { RootKept(Stored(h), st, h, st, root, t); }
    }

    method Update(key: seq<byte>, value: seq<byte>)
      requires Valid()
      modifies this
      ensures Valid() && SyncedAsBefore() && h.mode == UpdateMode(old(h), old(tree), key, value)
      ensures Updates(h, old(tree), key, value, tree)
    {
      UpdateReadied(h, cache, root, tree, key, value);
      var h' := h.(mode := UpdateMode(h, tree, key, value));
      ghost var u;
      var st, root';
      st, root', u := UpdateRoot(h', cache, root, key, value, tree);
      RecoversStill(h, cache, h', st, prevRoot, prevTree);
      h, cache, root, tree := h', st, root', u;
    }

    method Get(key: seq<byte>) returns (value: seq<byte>)
      requires Valid()
      modifies this
      ensures Valid() && SyncedAsBefore() && h == old(h) && tree == old(tree) && root == old(root)
      ensures Gives(h, Str(value), Lookup(tree, KeyOf(key)))
    {
      var k := CompactHexDecode(key);
      var st, r := GetState(h, cache, root, k, tree);
      RootKept(h, cache, h, st, root, tree);
      cache := st;
      value := StrOf(r);
    }

    /** `tail` is what lies behind the key in its backing array. */
    method Delete(key: seq<byte>, tail: Nibbles) returns (status: Status)
      requires Valid()
      modifies this
      ensures Valid() && SyncedAsBefore() && h.mode == DeleteMode(old(h), old(tree), key)
      ensures Deletes(h, old(tree), key, |tail|, status, tree) && (status == Panicked ==> root == old(root))
    {
      DeleteReadied(h, cache, root, tree, key);
      var h' := h.(mode := DeleteMode(h, tree, key));
      ghost var u;
      var st, root';
      st, root', status, u := DeleteRoot(h', cache, root, key, tail, tree);
      RecoversStill(h, cache, h', st, prevRoot, prevTree);
      h, cache, root, tree := h', st, root', u;
    }

    /** `Sync`: from now on the database alone answers for the tree, also where a value
        is 00. */
    method Sync()
      requires Valid()
      modifies this
      ensures Valid() && tree == old(tree) && root == old(root) && prevTree == tree && prevRoot == root
      ensures SameCodec(old(h), h) && h.mode == h.base == SyncMode(old(h)) && cache == Commit(old(cache))
      ensures IsRoot(Stored(h), Persisted(cache), root, tree)
    {
      SyncOk(h, cache, root, tree);
      cache := CommitNodes(cache);
      h := h.(mode := SyncMode(h), base := SyncMode(h));
      prevRoot, prevTree := root, tree;
    }

    /** `Undo`: whatever came between, every lookup is what it was at the last `Sync`. */
    method Undo()
      requires Recoverable()
      modifies this
      ensures Valid() && SyncedAsBefore() && h.mode == h.base && tree == prevTree && root == prevRoot
    {
      UndoOk(h, cache, prevRoot, prevTree);
      cache := UndoNodes(cache);
      h := h.(mode := h.base);
      root, tree := prevRoot, prevTree;
    }

    /** `Each`: the calls made. Under the empty key, which an empty root reads, there
        is nothing. */
    method Each() returns (calls: seq<Call>)
      requires Valid() && h.mode != Faded
      modifies this
      ensures Valid() && SyncedAsBefore() && h == old(h) && tree == old(tree) && root == old(root)
      ensures calls == Calls([], Pairs(tree))
    {
      var st;
      st, calls := FetchNode(h, cache, [], StrOf(root), tree);
      RootKept(h, cache, h, st, root, tree);
      cache := st;
    }
  }

  lemma {:induction false} RootIsNode(h: Codec, u: Tree, t: Tree, key: Nibbles, x: Tree)
    requires Node(t) && IsKey(key) && IsSlot(x) && Like(h, Insert(t, key, x), u)
    ensures Node(u) && Rooted(u) == u
  {
    InsertNode(t, key, x);
  }

  lemma {:induction false} Updated(h: Codec, t: Tree, key: seq<byte>, value: seq<byte>, u: Tree)
    requires Node(t) && Like(h, Insert(t, KeyOf(key), Slot(value)), u)
    ensures Updates(h, t, key, value, u)
    ensures h.mode != Faded && Bytewise(t) ==> Bytewise(u)
  {
    var w := Insert(t, KeyOf(key), Slot(value));
    forall s ensures Same(h, if s == key then value else Lookup(t, KeyOf(s)), Lookup(u, KeyOf(s))) {
      InsertLookup(t, KeyOf(key), Slot(value), KeyOf(s));
      if KeyOf(s) == KeyOf(key) { KeyOfInjective(s, key); }
      SameLike(h, w, u, KeyOf(s));
    }
    if Bytewise(t) { InsertBytewise(t, key, Slot(value)); }
  }

  lemma {:induction false} DeletedKeys(h: Codec, t: Tree, key: seq<byte>, room: nat, status: Status, u: Tree)
    requires Insertable(t, KeyOf(key)) && Outcome(h, t, KeyOf(key), room, status, u) && status != Panicked && Node(u)
    ensures Node(Rooted(u))
    ensures status == Done ==>
              forall s :: Same(h, if s == key then [] else Lookup(t, KeyOf(s)), Lookup(Rooted(u), KeyOf(s)))
    ensures h.mode != Faded && Bytewise(t) ==> Bytewise(Rooted(u))
  {
    if status == Done {
      forall s ensures Same(h, if s == key then [] else Lookup(t, KeyOf(s)), Lookup(Rooted(u), KeyOf(s))) {
        RootedLookup(u, KeyOf(s));
        if KeyOf(s) == KeyOf(key) { KeyOfInjective(s, key); }
      }
      if h.mode != Faded { RemovedWithin(h, t, KeyOf(key), u); }
    }
    RootedLookup(u, []);
    if h.mode != Faded && Bytewise(t) {
      forall q | IsKey(q) && Lookup(Rooted(u), q) != [] ensures |q| % 2 == 1 { RootedLookup(u, q); }
    }
  }

  // ---- ParanoiaCheck -----------------------------------------------------------------

  lemma {:induction false} UpdateAllSnoc(t: Tree, ops: seq<Binding>, op: Binding)
    requires Canonical(t) && NonEmpty(ops) && op.1 != []
    ensures Insertable(UpdateAll(t, ops), KeyOf(op.0))
    ensures UpdateAll(t, ops + [op]) == Insert(UpdateAll(t, ops), KeyOf(op.0), Val(op.1))
    decreases |ops|
  {
    var all := ops + [op];
    if ops == [] {
      InsertCanonical(t, KeyOf(op.0), op.1);
      assert all[1..] == [];
    } else {
      InsertCanonical(t, KeyOf(ops[0].0), ops[0].1);
      assert all[1..] == ops[1..] + [op];
      UpdateAllSnoc(Insert(t, KeyOf(ops[0].0), Val(ops[0].1)), ops[1..], op);
    }
  }

  ghost predicate DistinctKeys(ops: seq<Binding>) {
    forall i, j | 0 <= i < j < |ops| :: ops[i].0 != ops[j].0
  }

  /** With distinct keys, the final map has what each update put. */
  lemma {:induction false} FinalPut(m: map<seq<byte>, seq<byte>>, ops: seq<Binding>, i: nat)
    requires DistinctKeys(ops) && i < |ops|
    ensures ops[i].0 in Final(m, ops) && Final(m, ops)[ops[i].0] == ops[i].1
    decreases |ops|
  {
    var rest, m' := ops[1..], m[ops[0].0 := ops[0].1];
    if i == 0 {
      forall j | 0 <= j < |rest| ensures rest[j].0 != ops[0].0 { assert rest[j] == ops[j + 1]; }
      FinalOther(m', rest, ops[0].0);
    } else {
      assert rest[i - 1] == ops[i];
      RestDistinct(ops);
      FinalPut(m', rest, i - 1);
    }
  }

  lemma {:induction false} RestDistinct(ops: seq<Binding>)
    requires DistinctKeys(ops) && ops != []
    ensures DistinctKeys(ops[1..])
  {
    var rest := ops[1..];
    forall i, j | 0 <= i < j < |rest| ensures rest[i].0 != rest[j].0 {
      assert rest[i] == ops[i + 1] && rest[j] == ops[j + 1];
    }
  }

  /** A key that no update names keeps its place. */
  lemma {:induction false} FinalOther(m: map<seq<byte>, seq<byte>>, ops: seq<Binding>, s: seq<byte>)
    requires forall i | 0 <= i < |ops| :: ops[i].0 != s
    ensures s in Final(m, ops) <==> s in m
    ensures s in m ==> Final(m, ops)[s] == m[s]
    decreases |ops|
  {
    if ops != [] {
      assert ops[0].0 != s;
      var rest := ops[1..];
      forall i | 0 <= i < |rest| ensures rest[i].0 != s { assert rest[i] == ops[i + 1]; }
      FinalOther(m[ops[0].0 := ops[0].1], rest, s);
    }
  }

  lemma {:induction false} CallKeys(t: Tree, i: nat)
    requires Node(t) && Bytewise(t) && Lists(t, Pairs(t)) && i < |Pairs(t)|
    ensures var (q, v) := Pairs(t)[i];
            IsKey(q) && KeyOf(Calls([], Pairs(t))[i].0) == q && v == Lookup(t, q) != []
  {
    var q := Pairs(t)[i].0;
    assert [] + q == q;
    KeyOfDecoded(q);
  }

  lemma {:induction false} CallsDistinct(t: Tree)
    requires Node(t) && Bytewise(t) && Lists(t, Pairs(t))
    ensures var calls := Calls([], Pairs(t)); NonEmpty(calls) && DistinctKeys(calls)
  {
    var calls := Calls([], Pairs(t));
    forall i | 0 <= i < |calls|
      ensures calls[i].1 != [] && KeyOf(calls[i].0) == Pairs(t)[i].0
    {
      CallKeys(t, i);
    }
  }

  lemma {:induction false} CallFor(t: Tree, s: seq<byte>)
    requires Node(t) && Bytewise(t) && Lists(t, Pairs(t))
    ensures var calls := Calls([], Pairs(t));
            if Lookup(t, KeyOf(s)) != [] then (s, Lookup(t, KeyOf(s))) in calls
            else forall i | 0 <= i < |calls| :: calls[i].0 != s
  {
    var ps, calls := Pairs(t), Calls([], Pairs(t));
    if Lookup(t, KeyOf(s)) != [] {
      var i :| 0 <= i < |ps| && ps[i] == (KeyOf(s), Lookup(t, KeyOf(s)));
      CallAt(t, i, s);
    } else {
      forall i | 0 <= i < |calls| ensures calls[i].0 != s { NoCallAt(t, i, s); }
    }
  }

  lemma {:induction false} CallAt(t: Tree, i: nat, s: seq<byte>)
    requires Node(t) && Bytewise(t) && Lists(t, Pairs(t)) && i < |Pairs(t)| && Pairs(t)[i].0 == KeyOf(s)
    ensures Calls([], Pairs(t))[i] == (s, Pairs(t)[i].1)
  {
    CallKeys(t, i);
    KeyOfInjective(s, Calls([], Pairs(t))[i].0);
  }

  lemma {:induction false} NoCallAt(t: Tree, i: nat, s: seq<byte>)
    requires Node(t) && Bytewise(t) && Lists(t, Pairs(t)) && i < |Pairs(t)| && Lookup(t, KeyOf(s)) == []
    ensures Calls([], Pairs(t))[i].0 != s
  {
    CallKeys(t, i);
  }

  lemma {:induction false} CallFinal(t: Tree, s: seq<byte>)
    requires Node(t) && Bytewise(t) && Lists(t, Pairs(t)) && DistinctKeys(Calls([], Pairs(t)))
    ensures var f := Final(map[], Calls([], Pairs(t)));
            Lookup(t, KeyOf(s)) == if s in f then f[s] else []
  {
    var calls := Calls([], Pairs(t));
    CallFor(t, s);
    if Lookup(t, KeyOf(s)) != [] {
      var i :| 0 <= i < |calls| && calls[i] == (s, Lookup(t, KeyOf(s)));
      FinalPut(map[], calls, i);
    } else {
      FinalOther(map[], calls, s);
    }
  }

  /** The calls of a walk are updates with distinct keys that rebuild the bindings. */
  lemma {:induction false} CallsRebuild(t: Tree)
    requires Node(t) && Bytewise(t) && Solid(t)
    ensures var calls := Calls([], Pairs(t));
            NonEmpty(calls) && DistinctKeys(calls) && Binds(t, Final(map[], calls))
  {
    PairsExact(t);
    CallsDistinct(t);
    forall s
      ensures var f := Final(map[], Calls([], Pairs(t)));
              Lookup(t, KeyOf(s)) == if s in f then f[s] else []
    {
      CallFinal(t, s);
    }
  }

  method UpdateNext(t: Trie, ghost h: Codec, ops: seq<Binding>, i: nat)
    requires i < |ops| && t.Grown(h, ops, i)
    modifies t
    ensures t.Grown(h, ops, i + 1)
  {
    if NonEmpty(ops) { UpdateAllNext(ops, i); }
    t.Update(ops[i].0, ops[i].1);
  }

  lemma {:induction false} UpdateAllNext(ops: seq<Binding>, i: nat)
    requires NonEmpty(ops) && i < |ops|
    ensures var t := UpdateAll(Empty, ops[..i]);
            Insertable(t, KeyOf(ops[i].0)) && UpdateAll(Empty, ops[..i + 1]) == Insert(t, KeyOf(ops[i].0), Slot(ops[i].1))
  {
    UpdateAllSnoc(Empty, ops[..i], ops[i]);
    assert ops[..i + 1] == ops[..i] + [ops[i]];
  }

  /** A run of updates on a new trie. */
  method Rebuild(h: Codec, db: map<seq<byte>, Content>, ops: seq<Binding>) returns (t2: Trie)
    requires Sound(h) && h.mode == Built && h.base == Read
    requires forall k | k in db :: k == h.sha(db[k])
    ensures fresh(t2) && t2.Valid() && SameCodec(h, t2.h) && t2.h.mode == Built
    ensures NonEmpty(ops) ==> t2.tree == UpdateAll(Empty, ops) && StrOf(t2.root) == RootOf(h, t2.tree)
  {
    t2 := new Trie(h, db, Str([]), Empty);
    for i := 0 to |ops|
      invariant fresh(t2) && t2.Grown(h, ops, i)
    {
      UpdateNext(t2, h, ops, i);
    }
    assert ops[..|ops|] == ops;
    if NonEmpty(ops) {
      CanonicalRoot(t2.h, t2.cache, t2.root, t2.tree);
      SameRef(h, t2.h, t2.tree);
    }
  }

  lemma {:induction false} CanonicalRoot(h: Codec, st: Store, x: Item, t: Tree)
    requires IsRoot(h, st, x, t) && Canonical(t)
    ensures StrOf(x) == RootOf(h, t)
  {
    assert t.Full? ==> Forked(t.cs);
    RootIs(h, st, x, t);
  }

  /** Two tries that were updated differently to the same bindings have the same root. */
  method SameRoots(h: Codec, db: map<seq<byte>, Content>, ops: seq<Binding>, ops': seq<Binding>)
    returns (a: Trie, b: Trie)
    requires Sound(h) && h.mode == Built && h.base == Read && NonEmpty(ops) && NonEmpty(ops')
    requires forall k | k in db :: k == h.sha(db[k])
    ensures fresh(a) && fresh(b) && a.tree == UpdateAll(Empty, ops) && b.tree == UpdateAll(Empty, ops')
    ensures StrOf(a.root) == StrOf(b.root) <==> Final(map[], ops) == Final(map[], ops')
  {
    a := Rebuild(h, db, ops);
    b := Rebuild(h, db, ops');
    FinalSame(ops, ops');
    RootTrees(h, a.tree, b.tree);
  }

  lemma {:induction false} RootTrees(h: Codec, t: Tree, u: Tree)
    requires Sound(h) && Canonical(t) && Canonical(u)
    ensures RootOf(h, t) == RootOf(h, u) <==> t == u
  {
    CanonicalNode(t);
    CanonicalNode(u);
    if RootOf(h, t) == RootOf(h, u) {
      assert |h.sha(NodeContent(h, t))| >= 32 && |h.sha(NodeContent(h, u))| >= 32;
      if Branches(t) { NodeContentInjective(h, t, u); }
    }
  }

  lemma {:induction false} FinalSame(ops: seq<Binding>, ops': seq<Binding>)
    requires NonEmpty(ops) && NonEmpty(ops')
    ensures UpdateAll(Empty, ops) == UpdateAll(Empty, ops') <==> Final(map[], ops) == Final(map[], ops')
  {
    UpdateAllBinds(Empty, map[], ops);
    UpdateAllBinds(Empty, map[], ops');
    if Final(map[], ops) == Final(map[], ops') {
      BindsUnique(UpdateAll(Empty, ops), UpdateAll(Empty, ops'), Final(map[], ops));
    }
    if UpdateAll(Empty, ops) == UpdateAll(Empty, ops') {
      FinalNonEmpty(map[], ops);
      FinalNonEmpty(map[], ops');
      MapsEqual(UpdateAll(Empty, ops), Final(map[], ops), Final(map[], ops'));
    }
  }

  predicate FullMap(m: map<seq<byte>, seq<byte>>) {
    forall s | s in m :: m[s] != []
  }

  lemma {:induction false} FinalNonEmpty(m: map<seq<byte>, seq<byte>>, ops: seq<Binding>)
    requires NonEmpty(ops) && FullMap(m)
    ensures FullMap(Final(m, ops))
    decreases |ops|
  {
    if ops != [] { FinalNonEmpty(m[ops[0].0 := ops[0].1], ops[1..]); }
  }

  lemma {:induction false} MapsEqual(t: Tree, m: map<seq<byte>, seq<byte>>, m': map<seq<byte>, seq<byte>>)
    requires Binds(t, m) && Binds(t, m') && FullMap(m) && FullMap(m')
    ensures m == m'
  {
    forall s ensures (s in m <==> s in m') && (s in m ==> m[s] == m'[s]) {
      MapsAgree(Lookup(t, KeyOf(s)), m, m', s);
    }
  }

  lemma MapsAgree(v: seq<byte>, m: map<seq<byte>, seq<byte>>, m': map<seq<byte>, seq<byte>>, s: seq<byte>)
    requires FullMap(m) && FullMap(m')
    requires v == (if s in m then m[s] else []) && v == if s in m' then m'[s] else []
    ensures (s in m <==> s in m') && (s in m ==> m[s] == m'[s])
  {
  }

  /** Rebuilding a trie from its own walk. Unless a key ends in an empty value, the rebuilt trie
      is canonical with the same bindings, and the roots agree exactly when the trie has the
      canonical shape, as it has after any run of updates. */
  method ParanoiaCheck(t1: Trie) returns (same: bool, t2: Trie)
    requires t1.Valid() && t1.h.mode != Faded
    modifies t1
    ensures t1.Valid() && t1.h == old(t1.h) && t1.tree == old(t1.tree) && t1.root == old(t1.root)
    ensures fresh(t2) && t2.Valid() && t2.h.mode == Built
    ensures Solid(t1.tree) ==>
              && Canonical(t2.tree) && SameBindings(t2.tree, t1.tree)
              && (same <==> Canonical(t1.tree))
  {
    var calls := t1.Each();
    t2 := Rebuild(t1.h.(mode := Built, base := Read), t1.cache.db, calls);
    same := StrOf(t1.root) == StrOf(t2.root);
    if Solid(t1.tree) {
      CallsRebuild(t1.tree);
      UpdateAllBinds(Empty, map[], calls);
      SameMap(t1.tree, t2.tree, Final(map[], calls));
      RebuiltRoot(t1.h, t1.cache, t1.root, t1.tree, t2.h, t2.cache, t2.root, t2.tree);
    }
  }

  lemma {:induction false} RebuiltRoot(h: Codec, st: Store, x: Item, t: Tree, h': Codec, st': Store, y: Item, u: Tree)
    requires Sound(h) && SameCodec(h, h') && IsRoot(h, st, x, t) && Node(t)
    requires IsRoot(h', st', y, u) && Canonical(u) && SameBindings(u, t)
    ensures StrOf(x) == StrOf(y) <==> Canonical(t)
  {
    CanonicalNode(u);
    CanonicalRoot(h', st', y, u);
    SameRef(h, h', u);
    if Canonical(t) {
      CanonicalUnique(u, t);
      CanonicalRoot(h, st, x, t);
    }
    if StrOf(x) == StrOf(y) { RootDetermines(h, st, x, t, u); }
  }

  lemma {:induction false} RootDetermines(h: Codec, st: Store, x: Item, t: Tree, u: Tree)
    requires Sound(h) && IsRoot(h, st, x, t) && Node(t) && Node(u) && StrOf(x) == RootOf(h, u) && !u.Void?
    ensures t == u
  {
    assert |h.sha(NodeContent(h, t))| >= 32 && |h.sha(NodeContent(h, u))| >= 32 && |h.sha(L([]))| >= 32;
    if Branches(t) {
      NodeSize(h, t);
      NodeSize(h, u);
      NodeContentInjective(h, t, u);
    }
  }

  lemma {:induction false} SameMap(t: Tree, u: Tree, m: map<seq<byte>, seq<byte>>)
    requires Binds(t, m) && Binds(u, m)
    ensures SameBindings(u, t)
  {
    forall q | IsKey(q)
      ensures Lookup(u, q) == Lookup(t, q)
    {
      if |q| % 2 == 1 { KeyOfDecoded(q); }
    }
  }

  // ---- Values 00 ------------------------------------------------------------------------

  /** A run on a stored branch: load it, put it with another slot, commit. The result is what
      is then stored under the new hash. */
  function Rewrite(h: Codec, db: map<seq<byte>, Content>, key: seq<byte>, i: nat, slot: Item): Content
    requires i < 17
  {
    var (st, n) := Fetch(Store(map[], db, false), key);
    var (st', r) := Put(h, st, List(CopySlots(n)[i := slot]), true);
    ContentAt(Commit(st'), StrOf(r))
  }

  function ContentAt(st: Store, key: seq<byte>): Content {
    if key in st.db then st.db[key] else S([])
  }

  /** Of the other slots the run keeps exactly those in which no string 00 occurs. A value
      00 is still read before the run and is gone after it. */
  lemma {:induction false} ZeroValueLost(h: Codec, db: map<seq<byte>, Content>, cs: seq<Content>, i: nat, slot: Item, j: nat)
    requires |cs| == 17 && i < 17 && j < 17 && j != i
    requires h.sha(L(cs)) in db && db[h.sha(L(cs))] == L(cs)
    ensures var c := Rewrite(h, db, h.sha(L(cs)), i, slot);
            && c.L? && |c.cs| == 17
            && (c.cs[j] == cs[j] <==> !HasZeroByte(cs[j]))
            && (cs[j] == S([0]) ==> StrOf(Decoded(cs[j])) == [0] && StrOf(Decoded(c.cs[j])) == [])
  {
    var key := h.sha(L(cs));
    var (st, n) := Fetch(Store(map[], db, false), key);
    assert n == List(DecodedAll(cs));
    var slots := CopySlots(n)[i := slot];
    assert slots[j] == Decoded(cs[j]);
    var (st', r) := Put(h, st, List(slots), true);
    assert StrOf(r) in Pending(st');
    assert Rewrite(h, db, key, i, slot) == Wire(List(slots));
    assert Wire(List(slots)).cs[j] == Wire(Decoded(cs[j]));
    Reencoded(cs[j]);
    if cs[j] == S([0]) { OneByte(0); }
  }

  // ---- Runs -----------------------------------------------------------------------------

  datatype Op = Set(key: seq<byte>, value: seq<byte>) | Remove(key: seq<byte>, tail: Nibbles) | Look(key: seq<byte>)

  /** Any mix of updates, deletes and lookups followed by an undo. */
  method RunAndUndo(t: Trie, ops: seq<Op>)
    requires t.Recoverable() && t.Valid()
    modifies t
    ensures t.Valid() && t.tree == old(t.prevTree) && t.root == old(t.prevRoot) && t.cache.db == old(t.cache.db)
    ensures t.h.mode == old(t.h.base)
  {
    for i := 0 to |ops|
      invariant t.Valid() && t.prevTree == old(t.prevTree) && t.prevRoot == old(t.prevRoot)
      invariant t.h.base == old(t.h.base) && t.cache.db == old(t.cache.db)
    {
      match ops[i] {
        case Set(k, v) => t.Update(k, v);
        case Remove(k, tail) => var status := t.Delete(k, tail);
        case Look(k) => var value := t.Get(k);
      }
    }
    t.Undo();
  }

  /** After a `Sync`, a new trie over the database alone answers every lookup with exactly
      what the tree binds. */
  method Reopen(t: Trie, key: seq<byte>) returns (value: seq<byte>)
    requires t.Valid() && t.h.mode != Faded
    modifies t
    ensures t.Valid() && t.tree == old(t.tree) && t.root == old(t.root)
    ensures value == Lookup(t.tree, KeyOf(key))
  {
    t.Sync();
    value := GetStored(t.h, t.cache, t.root, key, t.tree);
  }

  method GetStored(h: Codec, st: Store, root: Item, key: seq<byte>, ghost t: Tree) returns (value: seq<byte>)
    requires Recovers(h, st, root, t) && h.mode == h.base == Read
    ensures value == Lookup(t, KeyOf(key))
  {
    var other := new Trie(h, st.db, root, t);
    value := other.Get(key);
  }

  /** A key that is inserted and deleted again leaves the root as it was, unless the delete
      is lossy. */
  method UpdateAndDelete(t: Trie, key: seq<byte>, value: seq<byte>, tail: Nibbles) returns (status: Status)
    requires t.Valid() && t.h.mode == Built && Canonical(t.tree)
    requires Lookup(t.tree, KeyOf(key)) == [] && value != []
    modifies t
    ensures t.Valid()
    ensures status != Panicked ==> (StrOf(t.root) == StrOf(old(t.root)) <==> status == Done)
  {
    ghost var st, x, t0 := t.cache, t.root, t.tree;
    DeletedAgain(t.h, t0, KeyOf(key), value);
    UpdateNew(t, key, value);
    status := DeleteNew(t, key, tail, t0);
    if status != Panicked { BackAgain(t.h, st, x, t.cache, t.root, t.tree, t0); }
  }

  method UpdateNew(t: Trie, key: seq<byte>, value: seq<byte>)
    requires t.Valid() && t.h.mode == Built && value != []
    modifies t
    ensures t.Valid() && t.h == old(t.h) && t.tree == Insert(old(t.tree), KeyOf(key), Val(value))
  {
    t.Update(key, value);
  }

  method DeleteNew(t: Trie, key: seq<byte>, tail: Nibbles, ghost t0: Tree) returns (status: Status)
    requires t.Valid() && t.h.mode == Built && Insertable(t.tree, KeyOf(key))
    requires Rooted(Deleted(t.h, t.tree, KeyOf(key))) == t0 <==> !Drops(t.h, t.tree, KeyOf(key))
    modifies t
    ensures t.Valid() && t.h == old(t.h)
    ensures status != Panicked ==> (t.tree == t0 <==> status == Done)
  {
    status := t.Delete(key, tail);
  }

  lemma {:induction false} DeletedAgain(h: Codec, t: Tree, key: Nibbles, v: seq<byte>)
    requires h.mode == Built && Canonical(t) && IsKey(key) && Lookup(t, key) == [] && v != []
    ensures Insertable(t, key)
    ensures var w := Insert(t, key, Val(v));
            Insertable(w, key) && (Rooted(Deleted(h, w, key)) == t <==> !Drops(h, w, key))
  {
    DeletedAsNeverInserted(h, t, key, v);
    var w := Insert(t, key, Val(v));
    DeletedCanonical(h, w, key);
    if Deleted(h, w, key).Void? { assert t.Full? ==> Forked(t.cs); }
  }

  lemma {:induction false} BackAgain(h: Codec, st0: Store, x0: Item, st: Store, x: Item, t: Tree, u: Tree)
    requires Sound(h) && IsRoot(h, st, x, t) && Node(t) && IsRoot(h, st0, x0, u) && Canonical(u)
    ensures StrOf(x) == StrOf(x0) <==> t == u
  {
    CanonicalRoot(h, st0, x0, u);
    CanonicalNode(u);
    if StrOf(x) == RootOf(h, u) { RootDetermines(h, st, x, t, u); }
    if t == u { CanonicalRoot(h, st, x, t); }
  }

  /** The tree of the source's codec with three keys, as updates build it. */
  lemma {:induction false} FamilyUpdates(h: Codec, t1: Tree, t2: Tree, t3: Tree)
    requires t1 == Insert(Empty, KeyOf([0, 0]), Slot([97])) && Node(t1) && t2 == Insert(t1, KeyOf([0x10, 0]), Slot([98]))
    requires Node(t2) && t3 == Insert(t2, KeyOf([0x10, 1]), Slot([99]))
    ensures t3 == Family([0, 0], 97, 98, 99)
  {
    FamilyKeys();
    FamilyBuilt([0, 0], 97, 98, 99);
  }

  lemma {:induction false} FamilyKeys()
    ensures var z := [0, 0];
            KeyOf([0, 0]) == [0] + z + [0, 16] && KeyOf([0x10, 0]) == [1] + z + [0, 16] && KeyOf([0x10, 1]) == [1] + z + [1, 16]
  {
    TwoByteKey(0, 0);
    TwoByteKey(0x10, 0);
    TwoByteKey(0x10, 1);
  }

  lemma {:induction false} TwoByteKey(a: byte, b: byte)
    ensures KeyOf([a, b]) == [a / 16, a % 16, b / 16, b % 16, 16]
  {
    var s := [a, b];
    assert s[1..] == [b] && s[1..][1..] == [];
    assert Unpack([b]) == [b / 16, b % 16];
    assert Unpack(s) == [a / 16, a % 16] + [b / 16, b % 16];
  }

  method ThreeUpdates(h: Codec) returns (t: Trie)
    requires Sound(h) && h.mode == Built && h.base == Read
    ensures fresh(t) && t.Valid() && t.h == h && t.tree == Family([0, 0], 97, 98, 99)
  {
    t := new Trie(h, map[], Str([]), Empty);
    t.Update([0, 0], [97]);
    ghost var t1 := t.tree;
    t.Update([0x10, 0], [98]);
    ghost var t2 := t.tree;
    t.Update([0x10, 1], [99]);
    FamilyUpdates(h, t1, t2, t.tree);
  }

  /** A run of the source's own trie that loses two keys: 1000 and 1001 go with 0000. */
  method LossyRun(sha3: seq<byte> -> seq<byte>)
    returns (b: seq<byte>, c: seq<byte>, status: Status, b': seq<byte>, c': seq<byte>)
    requires forall e :: |sha3(e)| >= 32
    requires forall e, f :: sha3(e) == sha3(f) ==> e == f
    ensures b == [98] && c == [99] && status == Dropped && b' == [] && c' == []
  {
    TheloniousSound(sha3, Built, Read);
    var t := ThreeUpdates(Thelonious(sha3, Built, Read));
    FamilyDelete(sha3);
    b, c := GetTwins(t);
    status := DeleteLossy(t, [0, 0], KeyOf([0x10, 0]), KeyOf([0x10, 1]));
    b', c' := GetTwins(t);
  }

  /** Deleting one of three keys is lossy, and the others go. */
  ghost predicate Falls(h: Codec, t: Tree, key: Nibbles, p: Nibbles, q: Nibbles) {
    && Insertable(t, key) && !Overruns(t, key, 0) && Drops(h, t, key)
    && Lookup(Rooted(Deleted(h, t, key)), p) == [] && Lookup(Rooted(Deleted(h, t, key)), q) == []
  }

  method DeleteLossy(t: Trie, key: seq<byte>, ghost p: Nibbles, ghost q: Nibbles) returns (status: Status)
    requires t.Valid() && t.h.mode == Built && Falls(t.h, t.tree, KeyOf(key), p, q)
    modifies t
    ensures t.Valid() && t.h.mode == Built && status == Dropped
    ensures Lookup(t.tree, p) == [] && Lookup(t.tree, q) == []
  {
    status := t.Delete(key, []);
    assert t.h == old(t.h);
  }

  method GetTwins(t: Trie) returns (b: seq<byte>, c: seq<byte>)
    requires t.Valid() && t.h.mode == Built
    modifies t
    ensures t.Valid() && t.h == old(t.h) && t.tree == old(t.tree)
    ensures b == Lookup(t.tree, KeyOf([0x10, 0])) && c == Lookup(t.tree, KeyOf([0x10, 1]))
  {
    b := t.Get([0x10, 0]);
    c := t.Get([0x10, 1]);
  }

  lemma {:induction false} FamilyDelete(sha3: seq<byte> -> seq<byte>)
    requires forall e :: |sha3(e)| >= 32
    requires forall e, f :: sha3(e) == sha3(f) ==> e == f
    ensures var h, t := Thelonious(sha3, Built, Read), Family([0, 0], 97, 98, 99);
            && Falls(h, t, KeyOf([0, 0]), KeyOf([0x10, 0]), KeyOf([0x10, 1]))
            && Lookup(t, KeyOf([0x10, 0])) == [98] && Lookup(t, KeyOf([0x10, 1])) == [99]
  {
    var h, t, key := Thelonious(sha3, Built, Read), Family([0, 0], 97, 98, 99), KeyOf([0, 0]);
    InlinePayloadLost(sha3, [0, 0], 97, 98, 99);
    FamilyKeys();
    FamilyRoom([0, 0], 97, 98, 99, 0);
    RootedLookup(Deleted(h, t, key), KeyOf([0x10, 0]));
    RootedLookup(Deleted(h, t, key), KeyOf([0x10, 1]));
  }
}
