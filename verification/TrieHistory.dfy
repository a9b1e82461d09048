/** What a run of updates leaves: the root depends on the final bindings alone, and
    the bindings depend on the root alone. */
module TrieHistory {
  import opened Bytes
  import opened HexPrefix
  import opened PatriciaTree
  import opened Rlp
  import opened NodeStore
  import opened NodeOps
  import opened NodeDelete

  /** One `Update`: a key and a value. */
  type Binding = (seq<byte>, seq<byte>)

  predicate NonEmpty(ops: seq<Binding>) {
    forall i | 0 <= i < |ops| :: ops[i].1 != []
  }

  /** The tree after a run of updates. */
  function UpdateAll(t: Tree, ops: seq<Binding>): (u: Tree)
    requires Canonical(t) && NonEmpty(ops)
    ensures Canonical(u)
    decreases |ops|
  {
    if ops == [] then t
    else
      InsertCanonical(t, KeyOf(ops[0].0), ops[0].1);
      UpdateAll(Insert(t, KeyOf(ops[0].0), Val(ops[0].1)), ops[1..])
  }

  /** The map after the same run. */
  function Final(m: map<seq<byte>, seq<byte>>, ops: seq<Binding>): map<seq<byte>, seq<byte>>
    decreases |ops|
  {
    if ops == [] then m else Final(m[ops[0].0 := ops[0].1], ops[1..])
  }

  /** The tree binds what the map binds, and nothing that is not a byte string. */
  ghost predicate Binds(t: Tree, m: map<seq<byte>, seq<byte>>) {
    && (forall s :: Lookup(t, KeyOf(s)) == if s in m then m[s] else [])
    && Bytewise(t)
  }

  ghost predicate Bytewise(t: Tree) {
    forall q | IsKey(q) && Lookup(t, q) != [] :: |q| % 2 == 1
  }

  lemma {:induction false} InsertBinds(t: Tree, m: map<seq<byte>, seq<byte>>, key: seq<byte>, v: seq<byte>)
    requires Node(t) && Binds(t, m) && v != []
    ensures Binds(Insert(t, KeyOf(key), Val(v)), m[key := v])
  {
    var u, m' := Insert(t, KeyOf(key), Val(v)), m[key := v];
    forall s ensures Lookup(u, KeyOf(s)) == if s in m' then m'[s] else [] {
      InsertBindsAt(t, m, key, v, s);
    }
    InsertBytewise(t, key, Val(v));
  }

  lemma {:induction false} KeyOdd(key: seq<byte>)
    ensures |KeyOf(key)| % 2 == 1
  {
  }

  lemma {:induction false} InsertBytewise(t: Tree, key: seq<byte>, x: Tree)
    requires Node(t) && Bytewise(t)
    ensures Bytewise(Insert(t, KeyOf(key), x))
  {
    KeyOdd(key);
    forall q | IsKey(q) && Lookup(Insert(t, KeyOf(key), x), q) != [] ensures |q| % 2 == 1 {
      InsertLookup(t, KeyOf(key), x, q);
    }
  }

  lemma {:induction false} InsertBindsAt(t: Tree, m: map<seq<byte>, seq<byte>>, key: seq<byte>, v: seq<byte>, s: seq<byte>)
    requires Node(t) && Binds(t, m) && v != []
    ensures Insertable(t, KeyOf(key))
    ensures Lookup(Insert(t, KeyOf(key), Val(v)), KeyOf(s)) == if s == key then v else if s in m then m[s] else []
  {
    InsertLookup(t, KeyOf(key), Val(v), KeyOf(s));
    if KeyOf(s) == KeyOf(key) { KeyOfInjective(s, key); }
  }

  lemma {:induction false} UpdateAllBinds(t: Tree, m: map<seq<byte>, seq<byte>>, ops: seq<Binding>)
    requires Canonical(t) && Binds(t, m) && NonEmpty(ops)
    ensures Binds(UpdateAll(t, ops), Final(m, ops))
    decreases |ops|
  {
    if ops != [] {
      var (k, v) := ops[0];
      CanonicalNode(t);
      InsertCanonical(t, KeyOf(k), v);
      InsertBinds(t, m, k, v);
      UpdateAllBinds(Insert(t, KeyOf(k), Val(v)), m[k := v], ops[1..]);
    }
  }

  lemma BindsUnique(t: Tree, u: Tree, m: map<seq<byte>, seq<byte>>)
    requires Canonical(t) && Canonical(u) && Binds(t, m) && Binds(u, m)
    ensures t == u
  {
    forall q | IsKey(q)
      ensures Lookup(t, q) == Lookup(u, q)
    {
      if |q| % 2 == 1 { KeyOfDecoded(q); }
    }
    CanonicalUnique(t, u);
  }

  /** The root of a tree. */
  function RootOf(h: Codec, t: Tree): seq<byte> {
    if Branches(t) then h.sha(NodeContent(h, t)) else []
  }

  /** Two runs of updates that leave the same map leave the same root. */
  lemma HistoryIndependence(h: Codec, ops: seq<Binding>, ops': seq<Binding>)
    requires NonEmpty(ops) && NonEmpty(ops') && Final(map[], ops) == Final(map[], ops')
    ensures UpdateAll(Empty, ops) == UpdateAll(Empty, ops')
    ensures RootOf(h, UpdateAll(Empty, ops)) == RootOf(h, UpdateAll(Empty, ops'))
  {
    UpdateAllBinds(Empty, map[], ops);
    UpdateAllBinds(Empty, map[], ops');
    BindsUnique(UpdateAll(Empty, ops), UpdateAll(Empty, ops'), Final(map[], ops));
  }

  /** With an empty value the root does depend on history: the node stays. */
  lemma EmptyValueStays(key: seq<byte>)
    ensures Insert(Empty, KeyOf(key), Empty) != Empty
    ensures SameBindings(Insert(Empty, KeyOf(key), Empty), Empty)
  {
  }

  /** Deleting a key that was inserted into a tree that was never loaded gives back the tree,
      unless the delete is lossy. */
  lemma {:induction false} DeletedAsNeverInserted(h: Codec, t: Tree, key: Nibbles, v: seq<byte>)
    requires h.mode == Built && Canonical(t) && IsKey(key) && Lookup(t, key) == [] && v != []
    ensures Insertable(t, key) && Canonical(Insert(t, key, Val(v))) && Insertable(Insert(t, key, Val(v)), key)
    ensures Deleted(h, Insert(t, key, Val(v)), key) == t <==> !Lossy(h, Insert(t, key, Val(v)), key)
  {
    InsertCanonical(t, key, v);
    var w := Insert(t, key, Val(v));
    CanonicalNode(w);
    DeletedCanonical(h, w, key);
    DeletedRemoves(h, w, key);
    if !Lossy(h, w, key) {
      var u := Deleted(h, w, key);
      forall q | IsKey(q)
        ensures Lookup(u, q) == Lookup(t, q)
      {
        InsertLookup(t, key, Val(v), q);
      }
      CanonicalUnique(u, t);
    } else {
      DamagedDiffers(t, key, v, Deleted(h, w, key));
    }
  }

  lemma {:induction false} DamagedDiffers(t: Tree, key: Nibbles, v: seq<byte>, u: Tree)
    requires Node(t) && IsKey(key) && Insertable(t, key) && Damaged(Insert(t, key, Val(v)), key, u)
    ensures u != t
  {
    var q :| IsKey(q) && q != key && Lookup(Insert(t, key, Val(v)), q) != [] && Lookup(u, q) == [];
    InsertLookup(t, key, Val(v), q);
  }

  // ---- The root fixes the bindings -----------------------------------------------------

  lemma CompactInjective(k: Nibbles, k': Nibbles)
    requires IsPart(k) && IsPart(k') && CompactEncode(k) == CompactEncode(k')
    ensures k == k'
  {
    CompactRoundTrip(k);
    CompactRoundTrip(k');
  }

  lemma {:induction false} RefInjective(h: Codec, t: Tree, u: Tree)
    requires Sound(h) && Node(t) && Node(u) && Ref(h, t) == Ref(h, u)
    ensures t == u
    decreases t, 2
  {
    if Branches(t) && Branches(u) {
      NodeContentInjective(h, t, u);
    } else {
      RefKind(h, t);
      RefKind(h, u);
    }
  }

  lemma {:induction false} RefKind(h: Codec, t: Tree)
    requires Sound(h) && Node(t)
    ensures Ref(h, t) == S([]) <==> t.Empty?
    ensures Ref(h, t) == L([]) <==> t.Void?
  {
    assert |h.sha(NodeContent(h, t))| >= 32;
    if Branches(t) { NodeSize(h, t); }
  }

  /** Node contents, and so roots, are equal only for equal trees. */
  lemma {:induction false} NodeContentInjective(h: Codec, t: Tree, u: Tree)
    requires Sound(h) && Node(t) && Node(u) && Branches(t) && Branches(u)
    requires NodeContent(h, t) == NodeContent(h, u) || Ref(h, t) == Ref(h, u)
    ensures t == u
    decreases t, 1
  {
    NodeSize(h, t);
    NodeSize(h, u);
    assert NodeContent(h, t) == NodeContent(h, u);
    if t.Short? {
      ShortInjective(h, t, u);
    } else {
      forall i | 0 <= i < 17
        ensures t.cs[i] == u.cs[i]
      {
        assert Refs(h, t.cs)[i] == Refs(h, u.cs)[i];
        if i < 16 { RefInjective(h, t.cs[i], u.cs[i]); }
      }
      assert t.cs == u.cs;
    }
  }

  lemma {:induction false} ShortInjective(h: Codec, t: Tree, u: Tree)
    requires Sound(h) && Node(t) && Node(u) && t.Short? && u.Short?
    requires NodeContent(h, t) == NodeContent(h, u)
    ensures t == u
    decreases t, 0
  {
    var a, b := NodeContent(h, t).cs, NodeContent(h, u).cs;
    assert a[0] == b[0] && a[1] == b[1];
    CompactInjective(t.k, u.k);
    if IsPath(t.k) { RefInjective(h, t.c, u.c); }
  }
}
