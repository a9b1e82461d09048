/** The value-level shape behind `monktrie/trie.go`: a Patricia trie whose hashed
    children have been resolved. `NodeStore` relates cached and stored nodes to these
    trees; everything about which keys are bound to what is proved here. */
module PatriciaTree {
  import opened Bytes
  import opened HexPrefix

  /** Two-item nodes are `Short`, seventeen-item nodes are `Full`; `Val` is the
      string at the end of a key and `Empty` the empty string in a slot. `Void` is the
      empty list that a branch read back from the database can fold into. */
  datatype Tree =
    | Empty
    | Void
    | Val(v: seq<byte>)
    | Short(k: Nibbles, c: Tree)
    | Full(cs: seq<Tree>)

  predicate IsSlot(t: Tree) {
    t.Empty? || (t.Val? && t.v != [])
  }

  /** Every node a run of updates and deletes can leave behind: a terminated key
      part ends in a value slot, an open one in another node. */
  predicate Node(t: Tree) {
    match t
    case Empty => true
    case Void => true
    case Val(_) => false
    case Short(k, c) =>
      || (IsKey(k) && IsSlot(c))
      || (|k| > 0 && IsPath(k) && Node(c))
    case Full(cs) =>
      && |cs| == 17
      && IsSlot(cs[16])
      && forall i | 0 <= i < 16 :: Node(cs[i])
  }

  /** The string bound to `key`, empty when there is none. */
  function Lookup(t: Tree, key: Nibbles): seq<byte> {
    match t
    case Empty => []
    case Void => []
    case Val(v) => if key == [] then v else []
    case Short(k, c) => if k != [] && k <= key then Lookup(c, key[|k|..]) else []
    case Full(cs) =>
      if key != [] && key[0] < |cs| then Lookup(cs[key[0]], key[1..]) else []
  }

  function NewLeaf(key: Nibbles, x: Tree): Tree {
    if key == [] then x else Short(key, x)
  }

  function Blank(): seq<Tree> {
    seq(17, _ => Empty)
  }

  /** A branch with nothing in it. */
  predicate IsBlank(t: Tree) {
    t.Full? && |t.cs| == 17 && forall i | 0 <= i < 17 :: t.cs[i].Empty?
  }

  /** The two-way split of a short node whose key part leaves `key` at index `m`. */
  function Split(k: Nibbles, c: Tree, key: Nibbles, x: Tree, m: nat): Tree
    requires m < |k| && m < |key| && k[m] < 17 && key[m] < 17
  {
    Full(Blank()[k[m] := NewLeaf(k[m + 1..], c)][key[m] := NewLeaf(key[m + 1..], x)])
  }

  predicate Insertable(t: Tree, key: Nibbles) {
    if key == [] then IsSlot(t) else IsKey(key) && Node(t)
  }

  /** Inserting `x` at `key`. */
  function Insert(t: Tree, key: Nibbles, x: Tree): Tree
    requires Insertable(t, key)
    decreases |key|
  {
    if key == [] then x
    else match t {
      case Empty => Short(key, x)
      case Void => Short(key, x)
      case Short(k, c) =>
        if k == key then Short(key, x)
        else
          var m := Match(key, k);
          Diverge(k, key);
          if m == |k| then Short(key[..m], Insert(c, key[m..], x))
          else if m == 0 then Split(k, c, key, x, m)
          else Short(key[..m], Split(k, c, key, x, m))
      case Full(cs) => Full(cs[key[0] := Insert(cs[key[0]], key[1..], x)])
    }
  }

  /** No complete key is a proper prefix of a key part. */
  lemma Diverge(k: Nibbles, key: Nibbles)
    requires IsKey(key) && |k| > 0 && (IsKey(k) || IsPath(k)) && k != key
    ensures var m := Match(key, k);
            && m < |key|
            && (m == |k| ==> IsPath(k) && IsKey(key[m..]))
            && (m < |k| ==> k[m] < 17 && key[m] < 17)
  {
  }

  /** The part of a key after a nibble it does not end in is a key again. */
  lemma KeyTail(k: Nibbles, m: nat)
    requires IsKey(k) && m < |k|
    ensures k[m..] != [] && IsKey(k[m..])
    ensures m + 1 < |k| ==> IsKey(k[m + 1..]) && k[m] < 16
    ensures m + 1 == |k| ==> k[m] == 16
  {
  }

  /** A key below a key part, and one below a slot. */
  lemma ShortAt(k: Nibbles, c: Tree, q: Nibbles)
    requires k != [] && IsPath(k) && IsKey(q)
    ensures IsKey(k + q) && k <= k + q && (k + q)[|k|..] == q
    ensures Lookup(Short(k, c), k + q) == Lookup(c, q)
  {
    assert (k + q)[|k|..] == q;
  }

  lemma FullAt(cs: seq<Tree>, i: nat, q: Nibbles)
    requires i < |cs| && i < 16 && IsKey(q)
    ensures IsKey([i] + q) && ([i] + q)[0] == i && ([i] + q)[1..] == q
    ensures Lookup(Full(cs), [i] + q) == Lookup(cs[i], q)
  {
    assert ([i] + q)[1..] == q;
  }

  // ---- Insert agrees with updating a map -------------------------------------

  lemma {:induction false} NewLeafNode(k: Nibbles, m: nat, c: Tree)
    requires m < |k|
    requires (IsKey(k) && IsSlot(c)) || (IsPath(k) && Node(c))
    ensures k[m] < 16 ==> Node(NewLeaf(k[m + 1..], c))
    ensures k[m] == 16 ==> IsSlot(NewLeaf(k[m + 1..], c))
    ensures k[m] < 17
  {
    if IsKey(k) {
      KeyTail(k, m);
    }
  }

  lemma {:induction false} SplitNode(k: Nibbles, c: Tree, key: Nibbles, x: Tree, m: nat)
    requires m < |k| && m < |key| && k[m] != key[m]
    requires (IsKey(k) && IsSlot(c)) || (IsPath(k) && Node(c))
    requires IsKey(key) && IsSlot(x)
    ensures k[m] < 17 && key[m] < 17 && Node(Split(k, c, key, x, m))
  {
    NewLeafNode(k, m, c);
    NewLeafNode(key, m, x);
  }

  lemma {:induction false} InsertNode(t: Tree, key: Nibbles, x: Tree)
    requires Insertable(t, key) && IsSlot(x)
    ensures if key == [] then IsSlot(Insert(t, key, x)) else Node(Insert(t, key, x))
    decreases |key|, 1
  {
    if key != [] {
      match t
      case Empty =>
      case Void =>
      case Short(k, c) => InsertNodeShort(k, c, key, x);
      case Full(cs) =>
        KeyTail(key, 0);
        InsertNode(cs[key[0]], key[1..], x);
    }
  }

  lemma {:induction false} InsertNodeShort(k: Nibbles, c: Tree, key: Nibbles, x: Tree)
    requires Node(Short(k, c)) && IsKey(key) && IsSlot(x)
    ensures Node(Insert(Short(k, c), key, x))
    decreases |key|, 0
  {
    if k != key {
      InsertShort(k, c, key, x);
      var m := Match(key, k);
      if m == |k| {
        InsertNode(c, key[m..], x);
      } else {
        SplitNode(k, c, key, x, m);
      }
    }
  }

  lemma NewLeafLookup(p: Nibbles, c: Tree, r: Nibbles)
    ensures Lookup(NewLeaf(p, c), r) == if p <= r then Lookup(c, r[|p|..]) else []
  {
    assert p == [] ==> r[|p|..] == r;
  }

  /** What follows the place of a split. */
  lemma {:induction false} SideParts(k: Nibbles, m: nat, q: Nibbles)
    requires m < |k| && k[..m] <= q && m < |q| && q[m] == k[m]
    ensures k[m + 1..] <= q[m + 1..] <==> k <= q
  {
    var p, r := k[m + 1..], q[m + 1..];
    if k <= q {
      assert q[..|k|] == k;
      assert p == r[..|p|];
    }
    if p <= r { assert k == q[..|k|] by { SideJoin(k, m, q); } }
  }

  lemma {:induction false} SideJoin(k: Nibbles, m: nat, q: Nibbles)
    requires m < |k| && k[..m] <= q && m < |q| && q[m] == k[m] && k[m + 1..] <= q[m + 1..]
    ensures |k| <= |q| && k == q[..|k|]
  {
    forall i | 0 <= i < |k| ensures k[i] == q[i] {
      if i < m { assert k[..m][i] == q[i]; }
      if i > m { assert k[m + 1..][i - m - 1] == q[m + 1..][i - m - 1]; }
    }
  }

  /** Below one slot of a split node. */
  lemma {:induction false} SideLookup(k: Nibbles, c: Tree, m: nat, q: Nibbles)
    requires m < |k| && k[..m] <= q && m < |q| && q[m] == k[m]
    ensures Lookup(NewLeaf(k[m + 1..], c), q[m..][1..]) == if k <= q then Lookup(c, q[|k|..]) else []
  {
    var p, r := k[m + 1..], q[m + 1..];
    assert q[m..][1..] == r;
    NewLeafLookup(p, c, r);
    SideParts(k, m, q);
    if k <= q { assert r[|p|..] == q[|k|..]; }
  }

  /** A split node answers for the old part and the new key and nothing else. */
  lemma {:induction false} SplitLookup(k: Nibbles, c: Tree, key: Nibbles, x: Tree, m: nat, q: Nibbles)
    requires m < |k| && m < |key| && k[m] != key[m] && k[m] < 17 && key[m] < 17
    requires k[..m] == key[..m] && key[..m] <= q
    ensures Lookup(Split(k, c, key, x, m), q[m..]) ==
            if k <= q then Lookup(c, q[|k|..])
            else if key <= q then Lookup(x, q[|key|..])
            else []
  {
    if m < |q| && q[m] == k[m] {
      SideLookup(k, c, m, q);
    } else if m < |q| && q[m] == key[m] {
      SideLookup(key, x, m, q);
    }
  }

  lemma PrefixKeys(a: Nibbles, b: Nibbles)
    requires IsKey(a) && IsKey(b) && a <= b
    ensures a == b
  {
    assert a[|a| - 1] == b[|a| - 1];
  }

  lemma KeySuffix(p: Nibbles, q: Nibbles)
    requires IsKey(q) && IsPath(p) && p <= q
    ensures |p| < |q| && IsKey(q[|p|..])
  {
  }

  lemma {:induction false} ShortSplitLookup(k: Nibbles, c: Tree, key: Nibbles, x: Tree, m: nat, q: Nibbles)
    requires IsKey(key) && IsKey(q) && m < |k| && m < |key|
    requires k[..m] == key[..m] && k[m] != key[m] && k[m] < 17 && key[m] < 17
    ensures var s := Split(k, c, key, x, m);
            Lookup(if m == 0 then s else Short(key[..m], s), q) ==
            if q == key then Lookup(x, []) else if k <= q then Lookup(c, q[|k|..]) else []
  {
    assert k <= q ==> k[m] == q[m] && k[..m] == q[..m];
    if key[..m] <= q {
      SplitLookup(k, c, key, x, m, q);
      if key <= q { PrefixKeys(key, q); }
      assert m == 0 ==> q[m..] == q;
    }
  }

  /** `Get` after `Update`: what was put at the updated key, every other key as before. */
  lemma {:induction false} InsertLookup(t: Tree, key: Nibbles, x: Tree, q: Nibbles)
    requires Insertable(t, key) && (if key == [] then q == [] else IsKey(q))
    ensures Lookup(Insert(t, key, x), q) == if q == key then Lookup(x, []) else Lookup(t, q)
    decreases |key|, 2
  {
    if key != [] {
      match t
      case Empty => LeafLookup(key, x, q);
      case Void => LeafLookup(key, x, q);
      case Short(k, c) => InsertLookupShort(k, c, key, x, q);
      case Full(cs) => InsertLookupFull(cs, key, x, q);
    }
  }

  lemma {:induction false} LeafLookup(key: Nibbles, x: Tree, q: Nibbles)
    requires IsKey(key) && IsKey(q)
    ensures Lookup(Short(key, x), q) == if q == key then Lookup(x, []) else []
  {
    if key <= q { PrefixKeys(key, q); }
  }

  lemma {:induction false} InsertLookupFull(cs: seq<Tree>, key: Nibbles, x: Tree, q: Nibbles)
    requires Node(Full(cs)) && IsKey(key) && IsKey(q)
    ensures Lookup(Insert(Full(cs), key, x), q) == if q == key then Lookup(x, []) else Lookup(Full(cs), q)
    decreases |key|, 1
  {
    KeyTail(key, 0);
    KeyTail(q, 0);
    if q[0] == key[0] {
      assert q == [q[0]] + q[1..] && key == [key[0]] + key[1..];
      InsertLookup(cs[key[0]], key[1..], x, q[1..]);
    }
  }

  lemma {:induction false} InsertLookupBelow(k: Nibbles, c: Tree, key: Nibbles, x: Tree, q: Nibbles)
    requires IsPath(k) && k != [] && k < key && Insertable(c, key[|k|..]) && IsKey(q) && IsKey(key)
    ensures Lookup(Short(k, Insert(c, key[|k|..], x)), q) ==
            if q == key then Lookup(x, []) else Lookup(Short(k, c), q)
    decreases |key|, 0
  {
    if k <= q {
      assert q == k + q[|k|..] && key == k + key[|k|..];
      KeySuffix(k, q);
      InsertLookup(c, key[|k|..], x, q[|k|..]);
    }
  }

  /** The three ways an insertion leaves a short node. */
  lemma InsertShort(k: Nibbles, c: Tree, key: Nibbles, x: Tree)
    requires Node(Short(k, c)) && IsKey(key) && k != key
    ensures var m := Match(key, k);
            && m < |key|
            && (m == |k| ==>
                  && IsPath(k) && k < key && Insertable(c, key[m..])
                  && Insert(Short(k, c), key, x) == Short(k, Insert(c, key[m..], x)))
            && (m < |k| ==>
                  && k[m] < 17 && key[m] < 17
                  && Insert(Short(k, c), key, x) ==
                     var s := Split(k, c, key, x, m);
                     if m == 0 then s else Short(key[..m], s))
  {
    Diverge(k, key);
  }

  lemma {:induction false} InsertLookupShort(k: Nibbles, c: Tree, key: Nibbles, x: Tree, q: Nibbles)
    requires Node(Short(k, c)) && IsKey(key) && IsKey(q)
    ensures Lookup(Insert(Short(k, c), key, x), q) == if q == key then Lookup(x, []) else Lookup(Short(k, c), q)
    decreases |key|, 1
  {
    if k == key {
      if key <= q { PrefixKeys(key, q); }
    } else {
      InsertShort(k, c, key, x);
      var m := Match(key, k);
      if m == |k| {
        InsertLookupBelow(k, c, key, x, q);
      } else {
        ShortSplitLookup(k, c, key, x, m, q);
      }
    }
  }

  // ---- The canonical shape ---------------------------------------------------

  /** Some two slots are occupied. */
  predicate Forked(cs: seq<Tree>) {
    exists i, j | 0 <= i < j < |cs| :: !cs[i].Empty? && !cs[j].Empty?
  }

  /** The one shape a set of bindings has: key parts run as far as all keys below
      agree, and a branch has at least two occupied slots. */
  predicate Canonical(t: Tree) {
    match t
    case Empty => true
    case Void => false
    case Val(_) => false
    case Short(k, c) =>
      || (IsKey(k) && c.Val? && c.v != [])
      || (|k| > 0 && IsPath(k) && c.Full? && Canonical(c))
    case Full(cs) =>
      && |cs| == 17
      && IsSlot(cs[16])
      && (forall i | 0 <= i < 16 :: Canonical(cs[i]))
      && Forked(cs)
  }

  lemma CanonicalNode(t: Tree)
    requires Canonical(t)
    ensures Node(t)
  {
  }

  lemma {:induction false} NewLeafCanonical(k: Nibbles, m: nat, c: Tree)
    requires m < |k|
    requires (IsKey(k) && c.Val? && c.v != []) || (IsPath(k) && c.Full? && Canonical(c))
    ensures var n := NewLeaf(k[m + 1..], c);
            !n.Empty? && (k[m] < 16 ==> Canonical(n)) && (k[m] == 16 ==> IsSlot(n)) && k[m] < 17
  {
    if IsKey(k) {
      KeyTail(k, m);
    }
  }

  lemma {:induction false} SplitCanonical(k: Nibbles, c: Tree, key: Nibbles, x: Tree, m: nat)
    requires m < |k| && m < |key| && k[m] != key[m]
    requires (IsKey(k) && c.Val? && c.v != []) || (IsPath(k) && c.Full? && Canonical(c))
    requires IsKey(key) && x.Val? && x.v != []
    ensures k[m] < 17 && key[m] < 17 && Canonical(Split(k, c, key, x, m))
  {
    NewLeafCanonical(k, m, c);
    NewLeafCanonical(key, m, x);
    var cs := Split(k, c, key, x, m).cs;
    var i, j := if k[m] < key[m] then k[m] else key[m], if k[m] < key[m] then key[m] else k[m];
    assert !cs[i].Empty? && !cs[j].Empty?;
  }

  lemma {:induction false} InsertCanonical(t: Tree, key: Nibbles, v: seq<byte>)
    requires Canonical(t) && IsKey(key) && v != []
    ensures Insertable(t, key)
    ensures var u := Insert(t, key, Val(v));
            Canonical(u) && !u.Empty? && (t.Full? ==> u.Full?)
    decreases |key|
  {
    CanonicalNode(t);
    match t
    case Empty =>
    case Short(k, c) =>
      if k != key {
        InsertShort(k, c, key, Val(v));
        var m := Match(key, k);
        if m == |k| {
          KeySuffix(k, key);
          InsertCanonical(c, key[m..], v);
        } else {
          SplitCanonical(k, c, key, Val(v), m);
        }
      }
    case Full(cs) =>
      KeyTail(key, 0);
      var i := key[0];
      var child := Insert(cs[i], key[1..], Val(v));
      if i < 16 {
        InsertCanonical(cs[i], key[1..], v);
      }
      SlotCanonical(cs, i, child);
  }

  lemma SlotCanonical(cs: seq<Tree>, i: nat, child: Tree)
    requires Canonical(Full(cs)) && i < |cs| && !child.Empty?
    requires if i < 16 then Canonical(child) && !child.Val? else child.Val? && child.v != []
    ensures Canonical(Full(cs[i := child]))
  {
    var a, b :| 0 <= a < b < |cs| && !cs[a].Empty? && !cs[b].Empty?;
    var ds := cs[i := child];
    assert !ds[a].Empty? && !ds[b].Empty?;
  }

  // ---- A canonical tree is determined by its bindings -------------------------

  ghost predicate SameBindings(t: Tree, u: Tree) {
    forall q | IsKey(q) :: Lookup(t, q) == Lookup(u, q)
  }

  /** Some key bound in a non-empty canonical tree. */
  ghost function Witness(t: Tree): (w: Nibbles)
    requires Canonical(t) && !t.Empty?
    ensures IsKey(w) && Lookup(t, w) != []
    decreases t, 1
  {
    match t
    case Short(k, c) =>
      if c.Val? then assert k[|k|..] == []; k
      else
        var w := k + Witness(c);
        assert w[|k|..] == Witness(c);
        w
    case Full(cs) =>
      var i :| 0 <= i < |cs| && !cs[i].Empty?;
      SlotWitness(t, i)
  }

  /** Some key bound below slot `i` of a canonical branch. */
  ghost function SlotWitness(t: Tree, i: nat): (w: Nibbles)
    requires Canonical(t) && t.Full? && i < 17 && !t.cs[i].Empty?
    ensures IsKey(w) && w[0] == i && Lookup(t, w) != []
    decreases t, 0
  {
    if i == 16 then
      assert [16][1..] == [];
      [16]
    else
      var w := [i] + Witness(t.cs[i]);
      assert w[1..] == Witness(t.cs[i]);
      w
  }

  lemma ShortBinds(k: Nibbles, c: Tree, q: Nibbles)
    requires Lookup(Short(k, c), q) != []
    ensures k <= q
  {
  }

  /** A branch below a key part has two keys that part ways right after it. */
  lemma {:induction false} ForkedKeys(k: Nibbles, c: Tree) returns (a: Nibbles, b: Nibbles)
    requires Canonical(Short(k, c)) && c.Full?
    ensures IsKey(a) && IsKey(b) && k < a && k < b && a[|k|] != b[|k|]
    ensures Lookup(Short(k, c), a) != [] && Lookup(Short(k, c), b) != []
  {
    var i, j :| 0 <= i < j < |c.cs| && !c.cs[i].Empty? && !c.cs[j].Empty?;
    var x, y := SlotWitness(c, i), SlotWitness(c, j);
    a, b := k + x, k + y;
    assert a[|k|..] == x && b[|k|..] == y;
  }

  lemma {:induction false} CommonPart(k: Nibbles, c: Tree, k': Nibbles, c': Tree)
    requires Canonical(Short(k, c)) && Canonical(Short(k', c')) && c.Full?
    requires SameBindings(Short(k, c), Short(k', c'))
    ensures c'.Full? && k' <= k
  {
    var a, b := ForkedKeys(k, c);
    ShortBinds(k', c', a);
    ShortBinds(k', c', b);
    assert k'[..|k'|] == k';
    assert a[..|k|] == k == b[..|k|];
    if c'.Val? {
      PrefixKeys(k', a);
      PrefixKeys(k', b);
    }
  }

  lemma {:induction false} BelowPart(k: Nibbles, c: Tree, c': Tree)
    requires IsPath(k) && k != [] && SameBindings(Short(k, c), Short(k, c'))
    ensures SameBindings(c, c')
  {
    forall q | IsKey(q)
      ensures Lookup(c, q) == Lookup(c', q)
    {
      var w := k + q;
      assert w[|k|..] == q;
      assert IsKey(w);
      assert Lookup(Short(k, c), w) == Lookup(Short(k, c'), w);
    }
  }

  lemma {:induction false} BelowSlot(t: Tree, u: Tree, i: nat)
    requires Canonical(t) && Canonical(u) && t.Full? && u.Full? && i < 17 && SameBindings(t, u)
    ensures i < 16 ==> SameBindings(t.cs[i], u.cs[i])
    ensures i == 16 ==> t.cs[i] == u.cs[i]
  {
    if i < 16 {
      forall q | IsKey(q)
        ensures Lookup(t.cs[i], q) == Lookup(u.cs[i], q)
      {
        var w := [i] + q;
        assert w[1..] == q;
        assert IsKey(w);
        assert Lookup(t, w) == Lookup(u, w);
      }
    } else {
      var w: Nibbles := [16];
      assert w[1..] == [];
      assert Lookup(t, w) == Lookup(t.cs[16], []) && Lookup(u, w) == Lookup(u.cs[16], []);
    }
  }

  lemma {:induction false} ShortIsNotFull(k: Nibbles, c: Tree, u: Tree)
    requires Canonical(Short(k, c)) && Canonical(u) && u.Full?
    ensures !SameBindings(Short(k, c), u)
  {
    if SameBindings(Short(k, c), u) {
      var i, j :| 0 <= i < j < |u.cs| && !u.cs[i].Empty? && !u.cs[j].Empty?;
      var x, y := SlotWitness(u, i), SlotWitness(u, j);
      ShortBinds(k, c, x);
      ShortBinds(k, c, y);
    }
  }

  lemma {:induction false} SameShort(k: Nibbles, c: Tree, k': Nibbles, c': Tree)
    requires Canonical(Short(k, c)) && Canonical(Short(k', c'))
    requires SameBindings(Short(k, c), Short(k', c'))
    ensures k == k' && c.Full? == c'.Full? && (c.Val? ==> c == c')
    ensures c.Full? ==> SameBindings(c, c')
  {
    if c.Full? {
      CommonPart(k, c, k', c');
      CommonPart(k', c', k, c);
      BelowPart(k, c, c');
    } else if c'.Full? {
      CommonPart(k', c', k, c);
    } else {
      assert k[|k|..] == [] && k'[|k'|..] == [];
      assert Lookup(Short(k, c), k) == c.v;
      assert Lookup(Short(k', c'), k) == c.v;
      PrefixKeys(k', k);
      assert k' == k;
      assert Lookup(Short(k', c'), k') == c'.v;
    }
  }

  /** Two canonical trees with the same bindings are the same tree. */
  lemma {:induction false} CanonicalUnique(t: Tree, u: Tree)
    requires Canonical(t) && Canonical(u) && SameBindings(t, u)
    ensures t == u
    decreases t
  {
    if t.Empty? || u.Empty? {
      if !t.Empty? { var w := Witness(t); }
      if !u.Empty? { var w := Witness(u); }
    } else if t.Short? && u.Short? {
      SameShort(t.k, t.c, u.k, u.c);
      if t.c.Full? {
        CanonicalUnique(t.c, u.c);
      }
    } else if t.Full? && u.Full? {
      forall i: nat | i < 17
        ensures t.cs[i] == u.cs[i]
      {
        BelowSlot(t, u, i);
        if i < 16 {
          CanonicalUnique(t.cs[i], u.cs[i]);
        }
      }
      assert t.cs == u.cs;
    } else if t.Short? {
      ShortIsNotFull(t.k, t.c, u);
    } else {
      ShortIsNotFull(u.k, u.c, t);
    }
  }

  // ---- The steps of a delete ---------------------------------------------------

  /** The only occupied slot, -1 when there is none, -2 when there are more. */
  function Amount(occupied: seq<bool>): (a: int)
    ensures -2 <= a < |occupied|
    ensures a == -1 ==> forall i | 0 <= i < |occupied| :: !occupied[i]
    ensures a >= 0 ==> occupied[a] && forall i | 0 <= i < |occupied| && i != a :: !occupied[i]
    ensures a == -2 ==> exists i, j | 0 <= i < j < |occupied| :: occupied[i] && occupied[j]
  {
    if occupied == [] then -1
    else
      var n := |occupied| - 1;
      var a := Amount(occupied[..n]);
      if !occupied[n] then a
      else if a == -1 then n
      else -2
  }

  /** A branch left with the single slot `a` folds into a short node; `lost` says
      that the payload of its two-item child could not be read as a string. */
  function Fold(cs: seq<Tree>, a: int, lost: bool): Tree
    requires -2 <= a < |cs|
  {
    if a == 16 then Short([16], cs[16])
    else if a >= 0 then
      match cs[a] {
        case Full(_) => Short([a], cs[a])
        case Short(k, c) => Short([a] + k, if lost then Empty else c)
        case _ => Void
      }
    else Full(cs)
  }

  /** A short node takes over the key part of a short child. */
  function Join(k: Nibbles, c: Tree): Tree {
    if c.Short? then Short(k + c.k, c.c) else Short(k, c)
  }

  lemma ConcatPart(k: Nibbles, k': Nibbles, c: Tree, q: Nibbles)
    requires k != [] && k' != []
    ensures Lookup(Short(k + k', c), q) == Lookup(Short(k, Short(k', c)), q)
  {
    if k <= q {
      assert q == k + q[|k|..];
      assert k + k' <= q <==> k' <= q[|k|..];
      assert k' <= q[|k|..] ==> q[|k|..][|k'|..] == q[|k + k'|..];
    } else {
      assert k <= k + k';
    }
  }

  lemma JoinLookup(k: Nibbles, c: Tree, q: Nibbles)
    requires k != [] && Node(c)
    ensures Lookup(Join(k, c), q) == Lookup(Short(k, c), q)
  {
    if c.Short? {
      ConcatPart(k, c.k, c.c, q);
    }
  }

  lemma JoinNode(k: Nibbles, c: Tree)
    requires k != [] && IsPath(k) && Node(c)
    ensures Node(Join(k, c))
    ensures Canonical(c) && !c.Empty? ==> Canonical(Join(k, c))
  {
  }

  predicate Single(cs: seq<Tree>, a: int) {
    a >= 0 ==> forall i | 0 <= i < |cs| && i != a :: cs[i].Empty?
  }

  lemma {:induction false} FoldLookup(cs: seq<Tree>, a: int, q: Nibbles)
    requires Node(Full(cs)) && -2 <= a < 17 && Single(cs, a) && IsKey(q)
    ensures Lookup(Fold(cs, a, false), q) == Lookup(Full(cs), q)
  {
    if a >= 0 {
      var p := [a];
      assert p <= q <==> q[0] == a;
      assert q[0] != a ==> cs[q[0]].Empty?;
      if a < 16 && cs[a].Short? {
        ConcatPart(p, cs[a].k, cs[a].c, q);
      }
    }
  }

  lemma {:induction false} FoldNode(cs: seq<Tree>, a: int, lost: bool)
    requires Node(Full(cs)) && -2 <= a < 17
    requires lost && 0 <= a < 16 && cs[a].Short? ==> IsPath(cs[a].k)
    ensures Node(Fold(cs, a, lost))
  {
  }

  lemma {:induction false} FoldCanonical(cs: seq<Tree>, a: int)
    requires |cs| == 17 && IsSlot(cs[16]) && forall i | 0 <= i < 16 :: Canonical(cs[i])
    requires -2 <= a < 17 && a != -1
    requires a == -2 ==> Forked(cs)
    requires a >= 0 ==> !cs[a].Empty?
    ensures Canonical(Fold(cs, a, false)) && !Fold(cs, a, false).Empty?
  {
    if 0 <= a < 16 && cs[a].Short? {
      CanonicalNode(cs[a]);
      JoinNode([a], cs[a]);
    }
  }

  // ---- Trees up to values 00 -------------------------------------------------------

  /** Equal, but that 00 and nothing may stand for each other. */
  predicate SameButZero(a: seq<byte>, b: seq<byte>) {
    a == b || (a in {[], [0]} && b in {[], [0]})
  }

  predicate ZeroSlot(t: Tree) {
    t.Empty? || t == Val([0])
  }

  /** The same shape and the same values, up to values 00. */
  predicate Alike(t: Tree, u: Tree) {
    || t == u
    || (ZeroSlot(t) && ZeroSlot(u))
    || (t.Short? && u.Short? && t.k == u.k && Alike(t.c, u.c))
    || (t.Full? && u.Full? && |t.cs| == |u.cs| && forall i | 0 <= i < |t.cs| :: Alike(t.cs[i], u.cs[i]))
  }

  lemma {:induction false} AlikeLookup(t: Tree, u: Tree, key: Nibbles)
    requires Alike(t, u)
    ensures SameButZero(Lookup(t, key), Lookup(u, key))
    decreases t
  {
    if t.Short? && u.Short? && t.k == u.k && Alike(t.c, u.c) {
      if t.k != [] && t.k <= key { AlikeLookup(t.c, u.c, key[|t.k|..]); }
    } else if t.Full? && u.Full? && t != u {
      if key != [] && key[0] < |t.cs| { AlikeLookup(t.cs[key[0]], u.cs[key[0]], key[1..]); }
    }
  }

  /** No value is 00. */
  predicate ZeroFree(t: Tree) {
    match t
    case Empty => true
    case Void => true
    case Val(v) => v != [0]
    case Short(_, c) => ZeroFree(c)
    case Full(cs) => forall i | 0 <= i < |cs| :: ZeroFree(cs[i])
  }
}
