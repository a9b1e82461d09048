/** `deleteState` of `monktrie/trie.go`. It removes exactly the key, with three
    exceptions that the model keeps: a key part longer than the rest of the key
    slices past the end of it, a branch that folds into a two-item child loses a
    payload stored inline as a list, and a slot read back from the database does
    not count as empty. */
module NodeDelete {
  import opened Bytes
  import opened HexPrefix
  import opened PatriciaTree
  import opened Rlp
  import opened NodeStore
  import opened NodeOps

  /** How a delete went: `Dropped` a list that was read as a string, or `Panicked` on a
      slice bound. */
  datatype Status = Done | Dropped | Panicked

  /** The subtree is inside its parent. */
  predicate Listed(h: Codec, c: Tree) {
    Ref(h, c).L?
  }

  function Occupied(slots: seq<Item>): (o: seq<bool>)
    ensures |o| == |slots| && forall i | 0 <= i < |slots| :: o[i] == (slots[i] != Str([]))
  {
    seq(|slots|, i requires 0 <= i < |slots| => slots[i] != Str([]))
  }

  /** The loop that counts the occupied slots. */
  method CountSlots(slots: seq<Item>) returns (amount: int)
    ensures amount == Amount(Occupied(slots))
  {
    amount := -1;
    var o := Occupied(slots);
    for i := 0 to |slots|
      invariant amount == Amount(o[..i])
    {
      assert o[..i + 1][..i] == o[..i];
      if slots[i] != Str([]) {
        amount := if amount == -1 then i else -2;
      }
    }
    assert o[..|slots|] == o;
  }

  // ---- What a delete does to a tree that was never loaded ----------------------------

  function Filled(cs: seq<Tree>): (o: seq<bool>)
    ensures |o| == |cs| && forall i | 0 <= i < |cs| :: o[i] == !cs[i].Empty?
  {
    seq(|cs|, i requires 0 <= i < |cs| => !cs[i].Empty?)
  }

  /** The payload that moves up in a fold is a list. */
  predicate Flat(h: Codec, cs: seq<Tree>, a: int)
    requires -2 <= a < |cs|
  {
    0 <= a < 16 && cs[a].Short? && Listed(h, cs[a].c)
  }

  /** It is a node, which the fold then loses. */
  predicate Loses(h: Codec, cs: seq<Tree>, a: int)
    requires -2 <= a < |cs|
  {
    Flat(h, cs, a) && Branches(cs[a].c)
  }

  function FoldOf(h: Codec, cs: seq<Tree>, a: int): Tree
    requires -2 <= a < |cs|
  {
    Fold(cs, a, Flat(h, cs, a))
  }

  predicate Passes(k: Nibbles, key: Nibbles) {
    k != key && |k| <= |key| && k == key[..|k|]
  }

  /** The tree that is left of one whose nodes were all built by this run. */
  function Deleted(h: Codec, t: Tree, key: Nibbles): Tree
    requires Insertable(t, key)
    decreases |key|
  {
    if key == [] then Empty
    else match t {
      case Empty => Empty
      case Void => Empty
      case Short(k, c) =>
        if k == key then Empty
        else if Passes(k, key) then Below(k, c, key); Join(k, Deleted(h, c, key[|k|..]))
        else t
      case Full(cs) =>
        KeyTail(key, 0);
        var ds := cs[key[0] := Deleted(h, cs[key[0]], key[1..])];
        FoldOf(h, ds, Amount(Filled(ds)))
    }
  }

  /** Whether a payload is dropped on the way. */
  predicate Drops(h: Codec, t: Tree, key: Nibbles)
    requires Insertable(t, key)
    decreases |key|
  {
    key != [] &&
    match t {
      case Empty => false
      case Void => false
      case Short(k, c) => Passes(k, key) && (Below(k, c, key); Drops(h, c, key[|k|..]))
      case Full(cs) =>
        KeyTail(key, 0);
        var ds := cs[key[0] := Deleted(h, cs[key[0]], key[1..])];
        Drops(h, cs[key[0]], key[1..]) || Loses(h, ds, Amount(Filled(ds)))
    }
  }

  predicate Sole(cs: seq<Tree>, i: nat, j: nat) {
    forall m | 0 <= m < |cs| && m != i && m != j :: cs[m].Empty?
  }

  /** Whatever was loaded, a payload can only be dropped where the path of the key meets a
      branch with one slot, or with two of which the other holds a two-item node around
      its payload. */
  predicate CanDrop(h: Codec, t: Tree, key: Nibbles)
    requires Insertable(t, key)
    decreases |key|
  {
    key != [] &&
    match t {
      case Empty => false
      case Void => false
      case Short(k, c) => Passes(k, key) && (Below(k, c, key); CanDrop(h, c, key[|k|..]))
      case Full(cs) => KeyTail(key, 0); Narrow(h, cs, key[0]) || CanDrop(h, cs[key[0]], key[1..])
    }
  }

  /** All the trees that a delete can leave, whatever was loaded: each branch on the path of
      the key is folded or not. */
  function LeftOver(h: Codec, t: Tree, key: Nibbles): set<Tree>
    requires Insertable(t, key)
    decreases |key|
  {
    if key == [] then {Empty}
    else match t {
      case Empty => {Empty}
      case Void => {Empty}
      case Short(k, c) =>
        if k == key then {Empty}
        else if Passes(k, key) then
          Below(k, c, key);
          set c' | c' in LeftOver(h, c, key[|k|..]) :: Join(k, c')
        else {t}
      case Full(cs) =>
        KeyTail(key, 0);
        var i := key[0];
        set c', u | c' in LeftOver(h, cs[i], key[1..]) && u in Foldings(h, cs, i, c') :: u
    }
  }

  /** A branch with the child in its i-th slot, and all that it can be folded to. */
  function Foldings(h: Codec, cs: seq<Tree>, i: nat, child: Tree): set<Tree>
    requires |cs| == 17 && i < 17
  {
    FoldingsOf(h, cs[i := child])
  }

  function FoldingsOf(h: Codec, ds: seq<Tree>): set<Tree>
    requires |ds| == 17
  {
    set a | -2 <= a < 17 && Single(ds, a) :: FoldOf(h, ds, a)
  }

  /** The tree that is left if no branch is folded. */
  function Kept(t: Tree, key: Nibbles): Tree
    requires Insertable(t, key)
    decreases |key|
  {
    if key == [] then Empty
    else match t {
      case Empty => Empty
      case Void => Empty
      case Short(k, c) =>
        if k == key then Empty
        else if Passes(k, key) then Below(k, c, key); Join(k, Kept(c, key[|k|..]))
        else t
      case Full(cs) => KeyTail(key, 0); Full(cs[key[0] := Kept(cs[key[0]], key[1..])])
    }
  }

  predicate Narrow(h: Codec, cs: seq<Tree>, i: nat) {
    exists j | 0 <= j < 16 && j < |cs| :: Sole(cs, i, j) && (j == i || Loses(h, cs, j))
  }

  /** The slice bound runs past the `room` behind the key. */
  predicate Overruns(t: Tree, key: Nibbles, room: nat)
    requires Insertable(t, key)
    decreases |key|
  {
    key != [] &&
    match t {
      case Empty => false
      case Void => false
      case Short(k, c) =>
        && k != key
        && (|k| > |key| + room || (Passes(k, key) && (Below(k, c, key); Overruns(c, key[|k|..], room))))
      case Full(cs) => KeyTail(key, 0); Overruns(cs[key[0]], key[1..], room)
    }
  }

  // ---- What the calls promise ------------------------------------------------------

  ghost predicate Same(h: Codec, a: seq<byte>, b: seq<byte>) {
    if h.mode == Faded then SameButZero(a, b) else a == b
  }

  /** The key is gone and every other is as it was. */
  ghost predicate Removed(h: Codec, t: Tree, key: Nibbles, u: Tree) {
    forall q | IsKey(q) :: Same(h, if q == key then [] else Lookup(t, q), Lookup(u, q))
  }

  /** The key is gone, and what else is bound was bound before. */
  ghost predicate Within(t: Tree, key: Nibbles, u: Tree) {
    forall q | IsKey(q) && Lookup(u, q) != [] :: q != key && Lookup(u, q) == Lookup(t, q)
  }

  /** How a delete can go, by what is known beforehand, and what it leaves. */
  ghost predicate Outcome(h: Codec, t: Tree, key: Nibbles, room: nat, status: Status, u: Tree)
    requires Insertable(t, key)
  {
    && (status == Panicked <==> Overruns(t, key, room))
    && (status == Done && key != [] ==> Removed(h, t, key, u))
    && (status == Dropped ==> CanDrop(h, t, key) && (h.mode != Faded ==> Within(t, key, u)))
    && (h.mode != Faded && status != Panicked ==> u in LeftOver(h, t, key))
    && (h.mode == Built && status != Panicked ==>
          u == Deleted(h, t, key) && (status == Dropped <==> Drops(h, t, key)))
    && (h.mode.Opened? && status != Panicked ==>
          status == Done && !u.Void? && (h.mode.cleared < 16 ==> u == Kept(t, key)))
  }

  /** The codec before a delete: as yet one slot less is cleared. */
  function Prev(h: Codec): Codec {
    h.(mode := if h.mode.Opened? && h.mode.cleared > 0 then Opened(h.mode.cleared - 1) else h.mode)
  }

  /** What a delete asks of nodes as they were loaded: there is room for one more slot to be
      cleared, and no key ends in a branch. */
  ghost predicate Clearable(h: Codec, t: Tree, key: Nibbles) {
    h.mode.Opened? ==> h.mode.cleared > 0 && Plain(t, |key|)
  }

  /** What can be read in one mode can be read in a weaker one. */
  lemma {:induction false} WeakerHolds(h: Codec, h': Codec, st: Store, t: Tree)
    requires SameCodec(h, h') && Weaker(h.mode, h'.mode) && Holds(h, st, t)
    ensures Holds(h', st, t)
  {
    WeakerCovers(h, st, h'.mode);
    assert Covers(h, st, h', st) by {
      forall n | Has(h, st, h.sha(n), n) ensures Has(h', st, h.sha(n), n) {
        assert Has(h.(mode := h'.mode), st, h.sha(n), n);
      }
    }
    HoldsKept(h, st, h', st, t);
  }

  lemma {:induction false} PrevNode(h: Codec, st: Store, n: Item, t: Tree)
    requires IsNode(Prev(h), n, t) && Holds(Prev(h), st, t)
    ensures IsNode(h, n, t) && Holds(h, st, t)
  {
    if Prev(h) != h {
      SameRef(Prev(h), h, t);
      StandsWeaker(Prev(h).mode, h.mode, n, NodeContent(h, t));
      WeakerHolds(Prev(h), h, st, t);
    }
  }

  lemma {:induction false} PrevRefers(h: Codec, st: Store, x: Item, t: Tree)
    requires Refers(Prev(h), st, x, t)
    ensures Refers(h, st, x, t)
  {
    if Prev(h) != h {
      SameRef(Prev(h), h, t);
      StandsWeaker(Prev(h).mode, h.mode, x, Ref(h, t));
      WeakerHolds(Prev(h), h, st, t);
    }
  }

  lemma {:induction false} PrevPoints(h: Codec, st: Store, x: Item, t: Tree)
    requires Points(Prev(h), st, x, t)
    ensures Points(h, st, x, t)
  {
    if Refers(Prev(h), st, x, t) {
      PrevRefers(h, st, x, t);
    } else if Prev(h) != h && Branches(t) {
      SameRef(Prev(h), h, t);
      WeakerHolds(Prev(h), h, st, t);
      var n := NodeContent(h, t);
      if h.sha(n) in st.nodes { StandsWeaker(Prev(h).mode, h.mode, st.nodes[h.sha(n)].value, n); }
    }
  }

  /** What is left is in order and can be written. */
  ghost predicate Left(h: Codec, r: Item, key: Nibbles, u: Tree) {
    Writable(h, u) && if key == [] then u.Empty? && !r.Byte? else Node(u) && !r.Byte?
  }

  lemma SameLike(h: Codec, t: Tree, u: Tree, q: Nibbles)
    requires Like(h, t, u)
    ensures Same(h, Lookup(t, q), Lookup(u, q))
  {
    AlikeLookup(t, u, q);
  }

  lemma {:induction false} RemovedLike(h: Codec, t: Tree, key: Nibbles, u: Tree, u': Tree)
    requires Removed(h, t, key, u) && Like(h, u, u')
    ensures Removed(h, t, key, u')
  {
    forall q | IsKey(q) ensures Same(h, if q == key then [] else Lookup(t, q), Lookup(u', q)) {
      SameLike(h, u, u', q);
    }
  }

  // ---- Folding -----------------------------------------------------------------------

  /** Only an empty tree is referred to by "", and by nothing else if nothing was loaded. */
  lemma {:induction false} EmptyRef(h: Codec, st: Store, x: Item, t: Tree)
    requires Sound(h) && Refers(h, st, x, t) && (Node(t) || IsSlot(t))
    ensures x == Str([]) ==> t.Empty?
    ensures h.mode == Built && t.Empty? ==> x == Str([])
  {
    if Branches(t) {
      NodeSize(h, t);
      assert |h.sha(NodeContent(h, t))| >= 32;
    }
  }

  lemma {:induction false} Alone(h: Codec, st: Store, slots: seq<Item>, cs: seq<Tree>)
    requires Sound(h) && WritesAll(h, st, slots, cs) && Node(Full(cs))
    ensures var a := Amount(Occupied(slots));
            Single(cs, a) && (h.mode == Built ==> a == Amount(Filled(cs)))
  {
    forall i | 0 <= i < 17
      ensures slots[i] == Str([]) ==> cs[i].Empty?
      ensures h.mode == Built && cs[i].Empty? ==> slots[i] == Str([])
    {
      EmptyRef(h, st, slots[i], cs[i]);
    }
    if h.mode == Built { assert Occupied(slots) == Filled(cs); }
  }

  lemma {:induction false} AllBlank(items: seq<Item>, n: nat)
    requires n <= |items|
    ensures Blanks(items, n) <= n
    ensures Blanks(items, n) < n ==> exists i | 0 <= i < n :: items[i] != Str([])
  {
    if n > 0 {
      AllBlank(items, n - 1);
      if items[n - 1] != Str([]) {
        assert exists i | 0 <= i < n :: items[i] != Str([]);
      }
    }
  }

  /** The place of a value in a loaded branch counts as occupied, and with less than 16
      cleared slots so does another. */
  lemma {:induction false} StiffAmount(slots: seq<Item>, d: nat)
    requires |slots| == 17 && Stiff(slots, d)
    ensures var a := Amount(Occupied(slots)); a in {-2, 16} && (d < 16 ==> a == -2)
  {
    var o := Occupied(slots);
    assert o[16];
    AllBlank(slots, 16);
    if d < 16 {
      var i :| 0 <= i < 16 && slots[i] != Str([]);
      assert o[i];
    }
  }

  /** The end of the seventeen-item case: put the branch, or fold it. */
  method FoldSlots(h: Codec, st: Store, slots: seq<Item>, ghost cs: seq<Tree>)
    returns (st': Store, r: Item, dropped: bool, ghost u: Tree)
    requires Sound(h) && WritesAll(h, st, slots, cs) && Node(Full(cs))
    ensures Keeps(h, st, st') && Writes(h, st', r, u) && !r.Byte?
    ensures var a := Amount(Occupied(slots));
            Like(h, FoldOf(h, cs, a), u) && (dropped <==> Loses(h, cs, a))
    ensures h.mode.Opened? ==> Amount(Occupied(slots)) in {-2, 16} && (h.mode.cleared < 16 ==> Amount(Occupied(slots)) == -2)
  {
    if h.mode.Opened? { StiffAmount(slots, h.mode.cleared); }
    var a := CountSlots(slots);
    if a == 16 {
      PutShort(h, st, [16], slots[16], cs[16]);
      var (st1, r1) := Put(h, st, Pair([16], slots[16]), false);
      return st1, r1, false, Short([16], cs[16]);
    } else if a >= 0 {
      assert Writes(h, st, slots[a], cs[a]);
      st', r, dropped, u := FoldChild(h, st, a, slots[a], cs[a]);
    } else {
      PutFull(h, st, slots, cs);
      var (st1, r1) := Put(h, st, List(slots), false);
      return st1, r1, false, Full(cs);
    }
  }

  /** The branch as a two-item node around its child `c`. */
  function FoldedChild(h: Codec, a: nat, c: Tree): Tree {
    match c
    case Full(_) => Short([a], c)
    case Short(k, d) => Short([a] + k, if Listed(h, d) then Empty else d)
    case _ => Void
  }

  /** A child with neither two nor seventeen items leaves the new node a nil list. */
  method FoldChild(h: Codec, st: Store, a: nat, slot: Item, ghost c: Tree)
    returns (st': Store, r: Item, dropped: bool, ghost u: Tree)
    requires Sound(h) && Writes(h, st, slot, c) && Node(c) && a < 16 && !slot.Byte?
    ensures Keeps(h, st, st') && Writes(h, st', r, u) && !r.Byte?
    ensures Like(h, FoldedChild(h, a, c), u)
    ensures dropped <==> c.Short? && Listed(h, c.c) && Branches(c.c)
  {
    if Nothing(c) { ResolveNothing(h, st, slot, c); } else { ResolveRef(h, st, slot, c); }
    var (st1, child) := GetNode(st, slot);
    if Len(child) == 17 {
      RefersKept(h, st, st1, slot, c);
      PutShort(h, st1, [a], slot, c);
      var (st2, r2) := Put(h, st1, Pair([a], slot), false);
      KeepsBoth(h, st, st1, st2);
      return st2, r2, false, Short([a], c);
    } else if Len(child) == 2 {
      HoldsKept(h, st, h, st1, c);
      st', r, dropped, u := FoldPair(h, st1, a, child, c);
      KeepsBoth(h, st, st1, st');
    } else {
      var (st2, r2) := Put(h, st1, List([]), false);
      return st2, r2, false, Void;
    }
  }

  method FoldPair(h: Codec, st: Store, a: nat, child: Item, ghost c: Tree)
    returns (st': Store, r: Item, dropped: bool, ghost u: Tree)
    requires Sound(h) && IsNode(h, child, c) && c.Short? && Node(c) && Holds(h, st, c) && a < 16
    ensures Keeps(h, st, st') && Writes(h, st', r, u) && !r.Byte?
    ensures Like(h, FoldedChild(h, a, c), u)
    ensures dropped <==> Listed(h, c.c) && Branches(c.c)
  {
    var k, v := ReadShort(h, st, child, c);
    st', r, u := PutPayload(h, st, a, k, v, c.c);
    StringPayload(h, st, v, c.c);
    dropped := v.List? && v != List([]);
  }

  /** `child.Get(1).Str()` behind the longer key part. */
  method PutPayload(h: Codec, st: Store, a: nat, k: Nibbles, v: Item, ghost c: Tree)
    returns (st': Store, r: Item, ghost u: Tree)
    requires Sound(h) && Refers(h, st, v, c) && Node(Short(k, c)) && (IsPath(k) ==> !v.Byte?) && a < 16
    ensures Keeps(h, st, st') && Writes(h, st', r, u) && !r.Byte?
    ensures Like(h, FoldedChild(h, a, Short(k, c)), u)
  {
    var payload, part := Str(StrOf(v)), [a] + k;
    StringPayload(h, st, v, c);
    ghost var below := PayloadTree(v, c);
    PutShort(h, st, part, payload, below);
    var (st1, r1) := Put(h, st, Pair(part, payload), false);
    RevivedLike(h, part, if Listed(h, c) then Empty else c, below);
    return st1, r1, Short(part, below);
  }

  lemma {:induction false} RevivedLike(h: Codec, k: Nibbles, c: Tree, d: Tree)
    requires Alike(c, d) && (d == c || (h.mode == Faded && IsKey(k) && IsSlot(d)))
    ensures Like(h, Short(k, c), Short(k, d))
  {
  }

  /** What the string of a reference to `c` stands for: a list is lost, and a byte 0 becomes
      the string 00. */
  ghost function PayloadTree(v: Item, c: Tree): Tree {
    if v.List? then Empty else if v == Byte(0) then Val([0]) else c
  }

  lemma {:induction false} StringPayload(h: Codec, st: Store, v: Item, c: Tree)
    requires Sound(h) && Refers(h, st, v, c) && (Node(c) || IsSlot(c))
    ensures v.List? <==> Listed(h, c)
    ensures v.List? && v != List([]) <==> Listed(h, c) && Branches(c)
    ensures var d, below := if Listed(h, c) then Empty else c, PayloadTree(v, c);
            && Writes(h, st, Str(StrOf(v)), below) && Alike(d, below)
            && (below == d || (h.mode == Faded && v.Byte? && IsSlot(below)))
  {
    PayloadKind(h, st, v, c);
    if !v.List? {
      var s := Ref(h, c).s;
      StrOfStands(h.mode, v, s);
      if Branches(c) { NodeSize(h, c); }
      assert Branches(c) ==> |s| >= 32;
      assert StrOf(v) == s || (v == Byte(0) && c.Empty?);
      assert v == Byte(0) ==> ZeroSlot(c);
    }
  }

  lemma {:induction false} PayloadKind(h: Codec, st: Store, v: Item, c: Tree)
    requires Sound(h) && Refers(h, st, v, c) && (Node(c) || IsSlot(c))
    ensures v.List? <==> Listed(h, c)
    ensures v.List? && v != List([]) <==> Listed(h, c) && Branches(c)
  {
    if Branches(c) {
      NodeSize(h, c);
      if v.List? { assert |Ref(h, c).cs| == |v.items| > 0; }
    }
  }

  // ---- deleteState ------------------------------------------------------------------

  method DeleteState(h: Codec, st: Store, x: Item, key: Nibbles, tail: Nibbles, ghost t: Tree)
    returns (st': Store, r: Item, status: Status, ghost u: Tree)
    requires Sound(h) && Points(Prev(h), st, x, t) && Insertable(t, key) && Writable(h, t) && (key != [] ==> !x.Byte?)
    requires Clearable(h, t, key)
    ensures Keeps(h, st, st')
    ensures status != Panicked ==> (Writes(h, st', r, u) || (r == x && u == t)) && Left(h, r, key, u)
    ensures Outcome(h, t, key, |tail|, status, u)
    decreases |key|, 3
  {
    PrevPoints(h, st, x, t);
    if key == [] { return st, Str([]), Done, Empty; }
    if x.Nil? || Len(x) == 0 {
      if !Nothing(t) { Resolve(h, st, x, t); }
      return st, Str([]), Done, Empty;
    }
    if Nothing(t) { ResolveNothing(h, st, x, t); }
    Resolve(h, st, x, t);
    Resolve(Prev(h), st, x, t);
    HoldsPoints(Prev(h), st, x, t);
    var (st1, n) := GetNode(st, x);
    HoldsKept(Prev(h), st, Prev(h), st1, t);
    if Len(n) == 2 {
      st', r, status, u := DeleteShort(h, st1, x, n, key, tail, t);
    } else {
      st', r, status, u := DeleteFull(h, st1, n, key, tail, t);
    }
    KeepsBoth(h, st, st1, st');
  }

  /** A delete below a node: an item that comes back as it was is encoded again. */
  method DeleteAt(h: Codec, st: Store, x: Item, key: Nibbles, tail: Nibbles, ghost t: Tree)
    returns (st': Store, r: Item, status: Status, ghost u: Tree)
    requires Sound(h) && Refers(Prev(h), st, x, t) && Insertable(t, key) && Writable(h, t) && (key != [] ==> !x.Byte?)
    requires Clearable(h, t, key)
    ensures Keeps(h, st, st')
    ensures status != Panicked ==> Writes(h, st', r, u) && Left(h, r, key, u)
    ensures Outcome(h, t, key, |tail|, status, u)
    decreases |key|, 4
  {
    PrevRefers(h, st, x, t);
    st', r, status, u := DeleteState(h, st, x, key, tail, t);
    if status != Panicked && !Writes(h, st', r, u) {
      RefersKept(h, st, st', x, t);
      Rewire(h, st', x, t);
      OutcomeLike(h, t, key, |tail|, status, t, FadeOf(x, t));
      u := FadeOf(x, t);
    }
  }

  lemma {:induction false} OutcomeLike(h: Codec, t: Tree, key: Nibbles, room: nat, status: Status, u: Tree, u': Tree)
    requires Insertable(t, key) && Outcome(h, t, key, room, status, u) && Like(h, u, u')
    ensures Outcome(h, t, key, room, status, u')
  {
    if status == Done && key != [] { RemovedLike(h, t, key, u, u'); }
  }

  /** A key part is no longer than the key it is a prefix of, whatever follows the key. */
  lemma PastTheEnd(k: Nibbles, key: Nibbles, tail: Nibbles)
    requires IsPart(k) && IsKey(key) && |k| <= |key| + |tail|
    ensures (key + tail)[..|k|] == k <==> |k| <= |key| && k == key[..|k|]
  {
    assert |k| <= |key| ==> (key + tail)[..|k|] == key[..|k|];
    assert (key + tail)[|key| - 1] == 16;
    assert (key + tail)[..|k|] == k ==> forall j | 0 <= j < |k| :: k[j] == (key + tail)[j];
  }

  lemma {:induction false} OnlyKey(h: Codec, t: Tree, key: Nibbles, room: nat)
    requires t.Short? && t.k == key && IsKey(key) && Node(t)
    ensures Outcome(h, t, key, room, Done, Empty)
  {
    forall q | IsKey(q) && key <= q
      ensures q == key
    {
      PrefixKeys(key, q);
    }
  }

  lemma {:induction false} NotBelow(h: Codec, t: Tree, key: Nibbles, room: nat)
    requires t.Short? && IsKey(key) && Node(t) && t.k != key && !Passes(t.k, key) && |t.k| <= |key| + room
    ensures Outcome(h, t, key, room, Done, t)
  {
  }

  method DeleteShort(h: Codec, st: Store, x: Item, n: Item, key: Nibbles, tail: Nibbles, ghost t: Tree)
    returns (st': Store, r: Item, status: Status, ghost u: Tree)
    requires Sound(h) && IsNode(Prev(h), n, t) && Writable(h, t) && !x.Byte?
    requires t.Short? && Holds(Prev(h), st, t) && Node(t) && IsKey(key) && Clearable(h, t, key)
    ensures Keeps(h, st, st')
    ensures status != Panicked ==> (Writes(h, st', r, u) || (r == x && u == t)) && Left(h, r, key, u)
    ensures Outcome(h, t, key, |tail|, status, u)
    decreases |key|, 2
  {
    var k, v := ReadShort(Prev(h), st, n, t);
    if k == key {
      OnlyKey(h, t, key, |tail|);
      return st, Str([]), Done, Empty;
    }
    if |k| > |key| + |tail| { return st, Nil, Panicked, Empty; }
    PastTheEnd(k, key, tail);
    if (key + tail)[..|k|] == k {
      st', r, status, u := DeleteBelow(h, st, n, k, v, key, tail, t);
    } else {
      NotBelow(h, t, key, |tail|);
      return st, x, Done, t;
    }
  }

  lemma OpenPart(k: Nibbles, c: Tree, key: Nibbles)
    requires Node(Short(k, c)) && IsKey(key) && Passes(k, key)
    ensures k != [] && IsPath(k) && k < key && Node(c) && IsKey(key[|k|..]) && Insertable(c, key[|k|..])
  {
    if IsPath(k) { KeySuffix(k, key); } else { PrefixKeys(k, key); }
  }

  method DeleteBelow(h: Codec, st: Store, n: Item, k: Nibbles, v: Item, key: Nibbles, tail: Nibbles, ghost t: Tree)
    returns (st': Store, r: Item, status: Status, ghost u: Tree)
    requires Sound(h) && IsNode(Prev(h), n, t) && Writable(h, t)
    requires t.Short? && k == t.k && Holds(Prev(h), st, t) && Refers(Prev(h), st, v, t.c) && Node(t) && (IsPath(k) ==> !v.Byte?)
    requires IsKey(key) && Passes(k, key) && Clearable(h, t, key)
    ensures Keeps(h, st, st')
    ensures status != Panicked ==> Writes(h, st', r, u) && Left(h, r, key, u)
    ensures Outcome(h, t, key, |tail|, status, u)
    decreases |key|, 1
  {
    DeleteReady(h, t, key, |tail|);
    ghost var c;
    var st1, hash;
    st1, hash, status, c := DeleteAt(h, st, v, key[|k|..], tail, t.c);
    if status == Panicked { return st1, Nil, status, Empty; }
    ShortParts(Prev(h), st, n, t.k, t.c);
    st', r, u := JoinChild(h, st1, k, StrOf(Get(n, 0)), hash, c);
    KeepsBoth(h, st, st1, st');
    JoinLeft(h, t, key, |tail|, status, c, u);
  }

  lemma {:induction false} DeleteReady(h: Codec, t: Tree, key: Nibbles, room: nat)
    requires t.Short? && Node(t) && IsKey(key) && Passes(t.k, key) && Writable(h, t) && Clearable(h, t, key)
    ensures IsPath(t.k) && t.k != [] && Node(t.c) && IsKey(key[|t.k|..]) && Insertable(t.c, key[|t.k|..])
    ensures Writable(h, t.c) && Clearable(h, t.c, key[|t.k|..])
    ensures Overruns(t.c, key[|t.k|..], room) ==> Outcome(h, t, key, room, Panicked, Empty)
  {
    OpenPart(t.k, t.c, key);
  }

  lemma {:induction false} JoinLeft(h: Codec, t: Tree, key: Nibbles, room: nat, status: Status, c: Tree, u: Tree)
    requires t.Short? && Node(t) && IsKey(key) && Passes(t.k, key) && Insertable(t.c, key[|t.k|..])
    requires Outcome(h, t.c, key[|t.k|..], room, status, c) && status != Panicked && Node(c) && Like(h, Join(t.k, c), u)
    ensures Outcome(h, t, key, room, status, u) && Node(u)
  {
    OpenPart(t.k, t.c, key);
    JoinNode(t.k, c);
    JoinOutcome(h, t, key, room, status, c);
    OutcomeLike(h, t, key, room, status, Join(t.k, c), u);
  }

  /** The end of the two-item case: the child's key part moves up, if it has one. */
  method JoinChild(h: Codec, st: Store, k: Nibbles, part: seq<byte>, hash: Item, ghost c: Tree)
    returns (st': Store, r: Item, ghost u: Tree)
    requires Sound(h) && Writes(h, st, hash, c) && Node(c) && Writable(h, c) && !hash.Byte?
    requires k != [] && IsPath(k) && part == CompactEncode(k)
    ensures Keeps(h, st, st') && Writes(h, st', r, u) && !r.Byte?
    ensures Like(h, Join(k, c), u) && Writable(h, u)
  {
    if Nothing(c) { ResolveNothing(h, st, hash, c); } else { ResolveRef(h, st, hash, c); }
    var (st1, child) := GetNode(st, hash);
    RefersKept(h, st, st1, hash, c);
    if Len(child) == 2 {
      st', r, u := JoinPair(h, st1, k, child, c);
    } else {
      PutShort(h, st1, k, hash, c);
      var (st2, r2) := Put(h, st1, Pair(k, hash), false);
      st', r, u := st2, r2, Short(k, c);
    }
    KeepsBoth(h, st, st1, st');
  }

  method JoinPair(h: Codec, st: Store, k: Nibbles, child: Item, ghost c: Tree)
    returns (st': Store, r: Item, ghost u: Tree)
    requires Sound(h) && IsNode(h, child, c) && c.Short? && Node(c) && Holds(h, st, c) && Writable(h, c)
    requires k != [] && IsPath(k)
    ensures Keeps(h, st, st') && Writes(h, st', r, u) && !r.Byte?
    ensures Like(h, Join(k, c), u) && Writable(h, u)
  {
    var k', v := ReadShort(h, st, child, c);
    ghost var d := FadeOf(v, c.c);
    JoinReady(h, st, k, v, c);
    PutShort(h, st, k + k', v, d);
    var (st1, r1) := Put(h, st, Pair(k + k', v), false);
    return st1, r1, Short(k + k', d);
  }

  lemma {:induction false} JoinReady(h: Codec, st: Store, k: Nibbles, v: Item, c: Tree)
    requires Sound(h) && c.Short? && Node(c) && Writable(h, c) && k != [] && IsPath(k)
    requires Refers(h, st, v, c.c) && (IsPath(c.k) ==> !v.Byte?)
    ensures var d := FadeOf(v, c.c);
            && IsPart(k + c.k) && Writes(h, st, v, d) && (v.Byte? ==> IsKey(k + c.k))
            && Like(h, Join(k, c), Short(k + c.k, d)) && Writable(h, Short(k + c.k, d))
  {
    Rewire(h, st, v, c.c);
    LikeShort(h, k + c.k, c.c, FadeOf(v, c.c));
  }

  lemma {:induction false} JoinRemoved(h: Codec, k: Nibbles, c: Tree, key: Nibbles, c': Tree)
    requires k != [] && IsPath(k) && k < key && IsKey(key) && Node(c') && Removed(h, c, key[|k|..], c')
    ensures Removed(h, Short(k, c), key, Join(k, c'))
  {
    forall q | IsKey(q)
      ensures Same(h, if q == key then [] else Lookup(Short(k, c), q), Lookup(Join(k, c'), q))
    {
      JoinLookup(k, c', q);
      PartRemovedAt(h, k, c, key, c', q);
    }
  }

  lemma {:induction false} PartRemovedAt(h: Codec, k: Nibbles, c: Tree, key: Nibbles, c': Tree, q: Nibbles)
    requires k != [] && IsPath(k) && k < key && IsKey(key) && Removed(h, c, key[|k|..], c') && IsKey(q)
    ensures Same(h, if q == key then [] else Lookup(Short(k, c), q), Lookup(Short(k, c'), q))
  {
    if k <= q {
      KeySuffix(k, q);
      assert q == k + q[|k|..] && key == k + key[|k|..];
    }
  }

  lemma {:induction false} JoinOutcome(h: Codec, t: Tree, key: Nibbles, room: nat, status: Status, c: Tree)
    requires t.Short? && Node(t) && IsKey(key) && Passes(t.k, key) && Insertable(t.c, key[|t.k|..])
    requires Outcome(h, t.c, key[|t.k|..], room, status, c) && status != Panicked && Node(c)
    ensures Outcome(h, t, key, room, status, Join(t.k, c))
  {
    OpenPart(t.k, t.c, key);
    if status == Done { JoinRemoved(h, t.k, t.c, key, c); }
    if status == Dropped && h.mode != Faded { JoinWithin(t.k, t.c, key, c); }
  }

  lemma {:induction false} JoinWithin(k: Nibbles, c: Tree, key: Nibbles, c': Tree)
    requires k != [] && IsPath(k) && k < key && IsKey(key) && Node(c') && Within(c, key[|k|..], c')
    ensures Within(Short(k, c), key, Join(k, c'))
  {
    forall q | IsKey(q) && Lookup(Join(k, c'), q) != []
      ensures q != key && Lookup(Join(k, c'), q) == Lookup(Short(k, c), q)
    {
      JoinLookup(k, c', q);
      KeySuffix(k, q);
      assert q == k + q[|k|..] && key == k + key[|k|..];
    }
  }

  lemma {:induction false} RemovedWithin(h: Codec, t: Tree, key: Nibbles, u: Tree)
    requires h.mode != Faded && Removed(h, t, key, u)
    ensures Within(t, key, u)
  {
  }

  lemma {:induction false} SlotWithin(cs: seq<Tree>, key: Nibbles, child: Tree)
    requires Node(Full(cs)) && IsKey(key) && (if key[1..] == [] then child.Empty? else Within(cs[key[0]], key[1..], child))
    ensures Within(Full(cs), key, Full(cs[key[0] := child]))
  {
    forall q | IsKey(q) && Lookup(Full(cs[key[0] := child]), q) != []
      ensures q != key && Lookup(Full(cs[key[0] := child]), q) == Lookup(Full(cs), q)
    {
      if q[0] == key[0] {
        assert q == [q[0]] + q[1..] && key == [key[0]] + key[1..];
        SlotWithinAt(cs, key[0], key[1..], child, q[1..]);
      }
    }
  }

  lemma {:induction false} SlotWithinAt(cs: seq<Tree>, i: nat, rest: Nibbles, child: Tree, p: Nibbles)
    requires |cs| == 17 && i < 17 && IsKey([i] + rest) && IsKey([i] + p) && Lookup(child, p) != []
    requires if rest == [] then child.Empty? else Within(cs[i], rest, child)
    ensures p != rest && Lookup(child, p) == Lookup(cs[i], p)
  {
    KeyTail([i] + p, 0);
    KeyTail([i] + rest, 0);
    assert ([i] + p)[1..] == p && ([i] + rest)[1..] == rest;
  }

  /** A fold that loses a node only loses. */
  lemma {:induction false} FoldWithin(h: Codec, t: Tree, key: Nibbles, ds: seq<Tree>, a: int)
    requires Within(t, key, Full(ds)) && Node(Full(ds)) && -2 <= a < 17 && Single(ds, a)
    ensures Within(t, key, FoldOf(h, ds, a))
  {
    forall q | IsKey(q) && Lookup(FoldOf(h, ds, a), q) != []
      ensures Lookup(FoldOf(h, ds, a), q) == Lookup(Full(ds), q)
    {
      if Flat(h, ds, a) { NothingBehind([a] + ds[a].k, q); } else { FoldKeeps(h, ds, a, q); }
    }
  }

  method DeleteFull(h: Codec, st: Store, n: Item, key: Nibbles, tail: Nibbles, ghost t: Tree)
    returns (st': Store, r: Item, status: Status, ghost u: Tree)
    requires Sound(h) && IsNode(Prev(h), n, t) && Writable(h, t)
    requires t.Full? && Holds(Prev(h), st, t) && Node(t) && IsKey(key) && Clearable(h, t, key)
    ensures Keeps(h, st, st')
    ensures status != Panicked ==> Writes(h, st', r, u) && Left(h, r, key, u)
    ensures Outcome(h, t, key, |tail|, status, u)
    decreases |key|, 2
  {
    KeyTail(key, 0);
    var i := key[0];
    var slots := CopySlots(n);
    PrevNode(h, st, n, t);
    SlotCopied(Prev(h), st, n, t.cs, i);
    var st1, slot, below;
    ghost var child;
    st1, slot, below, child := DeleteAt(h, st, slots[i], key[1..], tail, t.cs[i]);
    if below == Panicked { return st1, Nil, below, Empty; }
    if h.mode.Opened? { StaysStiff(Prev(h), n, t, i, slot); }
    SlotsReplaced(h, st, st1, n, t.cs, i, slot, child);
    st', r, status, u := FinishFull(h, st, st1, n, slot, key, |tail|, child, below, t);
    KeepsBoth(h, st, st1, st');
  }

  /** The slot that the key goes through. */
  ghost predicate SlotOutcome(h: Codec, cs: seq<Tree>, key: Nibbles, room: nat, below: Status, child: Tree)
    requires Node(Full(cs)) && IsKey(key)
  {
    && (key[0] == 16 <==> key[1..] == [])
    && Insertable(cs[key[0]], key[1..]) && Outcome(h, cs[key[0]], key[1..], room, below, child) && below != Panicked
    && Writable(h, child) && if key[1..] == [] then child.Empty? else Node(child)
  }

  method FinishFull(h: Codec, ghost st: Store, st1: Store, n: Item, slot: Item, key: Nibbles, ghost room: nat,
                    ghost child: Tree, below: Status, ghost t: Tree)
    returns (st': Store, r: Item, status: Status, ghost u: Tree)
    requires Sound(h) && IsNode(h, n, t) && Writable(h, t)
    requires t.Full? && Holds(h, st, t) && Node(t) && IsKey(key)
    requires WritesAll(h, st1, CopySlots(n)[key[0] := slot], Copied(n, t.cs)[key[0] := child])
    requires LikeAll(h, t.cs, Copied(n, t.cs)) && SlotOutcome(h, t.cs, key, room, below, child)
    ensures Keeps(h, st1, st') && Writes(h, st', r, u) && Left(h, r, key, u)
    ensures Outcome(h, t, key, room, status, u) && status != Panicked
  {
    var slots := CopySlots(n)[key[0] := slot];
    ghost var ds := Copied(n, t.cs)[key[0] := child];
    ghost var a := Amount(Occupied(slots));
    BranchNode(h, t.cs, Copied(n, t.cs), key[0], child);
    Alone(h, st1, slots, ds);
    var dropped;
    st', r, dropped, u := FoldSlots(h, st1, slots, ds);
    status := if dropped then Dropped else below;
    FoldLeft(h, ds, a, u);
    if dropped { LosesBefore(h, st, n, t.cs, key[0], slot, child, a); }
    FoldOutcome(h, t.cs, key, room, below, Copied(n, t.cs), child, a, u);
  }

  lemma {:induction false} BranchNode(h: Codec, cs: seq<Tree>, ds: seq<Tree>, i: nat, child: Tree)
    requires Node(Full(cs)) && i < 17 && LikeAll(h, cs, ds) && Writable(h, Full(cs)) && Writable(h, child)
    requires if i == 16 then child.Empty? else Node(child)
    ensures Node(Full(ds[i := child])) && Writable(h, Full(ds[i := child]))
  {
    forall j | 0 <= j < 17 && j != i
      ensures (j < 16 ==> Node(ds[j])) && (j == 16 ==> IsSlot(ds[j])) && (h.mode == Read || h.mode.Opened? ==> ZeroFree(ds[j]))
    {
      assert Like(h, cs[j], ds[j]);
    }
  }

  lemma {:induction false} FoldLeft(h: Codec, ds: seq<Tree>, a: int, u: Tree)
    requires Node(Full(ds)) && Writable(h, Full(ds)) && -2 <= a < 17 && Like(h, FoldOf(h, ds, a), u)
    ensures Node(u) && Writable(h, u)
  {
    var lost := Flat(h, ds, a);
    FoldNode(ds, a, lost);
    if a >= 0 { assert ZeroFree(Full(ds)) ==> ZeroFree(ds[a]); }
  }

  /** A payload that is lost was inside its parent before. */
  lemma {:induction false} LosesBack(h: Codec, c: Tree, d: Tree)
    requires Sound(h) && Dims(Ref(h, c), Ref(h, d)) && Like(h, c, d)
    requires d.Short? && Listed(h, d.c) && Branches(d.c)
    ensures c.Short? && Listed(h, c.c) && Branches(c.c)
  {
    assert c.Short? && Alike(c.c, d.c) && Branches(c.c);
    var n, m := NodeContent(h, c), NodeContent(h, d);
    if h.inline(n) {
      assert Ref(h, c) == n && Ref(h, d) == m;
      assert Dims(n.cs[1], m.cs[1]);
    } else {
      assert |h.sha(n)| >= 32;
      assert n == m;
    }
  }

  lemma {:induction false} LosesBefore(h: Codec, st: Store, n: Item, cs: seq<Tree>, i: nat, slot: Item, child: Tree, a: int)
    requires Sound(h) && IsNode(h, n, Full(cs)) && Writable(h, Full(cs)) && Holds(h, st, Full(cs)) && Node(Full(cs))
    requires i < 17 && a == Amount(Occupied(CopySlots(n)[i := slot])) && Loses(h, Copied(n, cs)[i := child], a)
    ensures Narrow(h, cs, i)
  {
    var slots := CopySlots(n)[i := slot];
    forall m | 0 <= m < 17 && m != i && m != a ensures cs[m].Empty? {
      assert !Occupied(slots)[m];
      SlotCopied(h, st, n, cs, m);
      EmptyRef(h, st, slots[m], cs[m]);
    }
    assert Sole(cs, i, a);
    if a != i {
      SlotCopied(h, st, n, cs, a);
      LosesBack(h, cs[a], Copied(n, cs)[a]);
    }
  }

  lemma {:induction false} SlotRemovedAt(h: Codec, cs: seq<Tree>, i: nat, rest: Nibbles, child: Tree, p: Nibbles)
    requires |cs| == 17 && i < 17 && IsKey([i] + rest) && IsKey([i] + p)
    requires if rest == [] then child.Empty? else Removed(h, cs[i], rest, child)
    ensures Same(h, if p == rest then [] else Lookup(cs[i], p), Lookup(child, p))
  {
    KeyTail([i] + p, 0);
    KeyTail([i] + rest, 0);
    assert ([i] + p)[1..] == p && ([i] + rest)[1..] == rest;
  }

  lemma {:induction false} SlotRemoved(h: Codec, cs: seq<Tree>, key: Nibbles, ds: seq<Tree>, child: Tree)
    requires Node(Full(cs)) && IsKey(key) && LikeAll(h, cs, ds)
    requires if key[1..] == [] then child.Empty? else Removed(h, cs[key[0]], key[1..], child)
    ensures Removed(h, Full(cs), key, Full(ds[key[0] := child]))
  {
    assert key == [key[0]] + key[1..];
    forall q | IsKey(q)
      ensures Same(h, if q == key then [] else Lookup(Full(cs), q), Lookup(Full(ds[key[0] := child]), q))
    {
      assert q == [q[0]] + q[1..];
      if q[0] == key[0] {
        SlotRemovedAt(h, cs, key[0], key[1..], child, q[1..]);
      } else {
        assert Like(h, cs[q[0]], ds[q[0]]);
        SameLike(h, cs[q[0]], ds[q[0]], q[1..]);
      }
    }
  }

  /** A fold that loses no node keeps every binding. */
  lemma {:induction false} FoldKeeps(h: Codec, ds: seq<Tree>, a: int, q: Nibbles)
    requires Node(Full(ds)) && -2 <= a < 17 && Single(ds, a) && !Loses(h, ds, a) && IsKey(q)
    ensures Lookup(FoldOf(h, ds, a), q) == Lookup(Full(ds), q)
  {
    FoldLookup(ds, a, q);
    if Flat(h, ds, a) {
      assert ds[a].c.Void?;
      assert Lookup(Short([a] + ds[a].k, Void), q) == Lookup(Short([a] + ds[a].k, Empty), q);
    }
  }

  lemma {:induction false} FoldRemoved(h: Codec, t: Tree, key: Nibbles, ds: seq<Tree>, a: int)
    requires Removed(h, t, key, Full(ds)) && Node(Full(ds)) && -2 <= a < 17 && Single(ds, a) && !Loses(h, ds, a)
    ensures Removed(h, t, key, FoldOf(h, ds, a))
  {
    forall q | IsKey(q)
      ensures Lookup(FoldOf(h, ds, a), q) == Lookup(Full(ds), q)
    {
      FoldKeeps(h, ds, a, q);
    }
  }

  /** The outcome of the seventeen-item case, from that of the slot. */
  lemma {:induction false} FoldOutcome(h: Codec, cs: seq<Tree>, key: Nibbles, room: nat, below: Status,
                                       copied: seq<Tree>, child: Tree, a: int, u: Tree)
    requires Node(Full(cs)) && IsKey(key) && SlotOutcome(h, cs, key, room, below, child) && LikeAll(h, cs, copied)
    requires var ds := copied[key[0] := child];
             && Node(Full(ds)) && -2 <= a < 17 && Single(ds, a) && (h.mode == Built ==> a == Amount(Filled(ds)))
             && Like(h, FoldOf(h, ds, a), u)
             && (Loses(h, ds, a) ==> Narrow(h, cs, key[0]))
             && (h.mode.Opened? ==> a in {-2, 16} && (h.mode.cleared < 16 ==> a == -2))
    ensures Outcome(h, Full(cs), key, room, if Loses(h, copied[key[0] := child], a) then Dropped else below, u)
  {
    var ds := copied[key[0] := child];
    if !Loses(h, ds, a) && below == Done {
      SlotRemoved(h, cs, key, copied, child);
      FoldRemoved(h, Full(cs), key, ds, a);
      RemovedLike(h, Full(cs), key, FoldOf(h, ds, a), u);
    }
    if h.mode != Faded {
      assert copied == cs;
      if key[1..] != [] && below == Done { RemovedWithin(h, cs[key[0]], key[1..], child); }
      SlotWithin(cs, key, child);
      FoldWithin(h, Full(cs), key, ds, a);
      LeftOverFull(h, cs, key, child, a);
      if h.mode == Built { FoldBuilt(h, cs, key, child); }
    }
  }

  lemma {:induction false} LeftOverFull(h: Codec, cs: seq<Tree>, key: Nibbles, child: Tree, a: int)
    requires Node(Full(cs)) && IsKey(key) && Insertable(cs[key[0]], key[1..]) && child in LeftOver(h, cs[key[0]], key[1..])
    requires -2 <= a < 17 && Single(cs[key[0] := child], a)
    ensures FoldOf(h, cs[key[0] := child], a) in LeftOver(h, Full(cs), key)
  {
    assert FoldOf(h, cs[key[0] := child], a) in Foldings(h, cs, key[0], child);
  }

  lemma FoldBuilt(h: Codec, cs: seq<Tree>, key: Nibbles, child: Tree)
    requires Node(Full(cs)) && IsKey(key) && Insertable(cs[key[0]], key[1..])
    requires child == Deleted(h, cs[key[0]], key[1..])
    ensures var ds := cs[key[0] := child];
            && Deleted(h, Full(cs), key) == FoldOf(h, ds, Amount(Filled(ds)))
            && (Drops(h, Full(cs), key) <==> Drops(h, cs[key[0]], key[1..]) || Loses(h, ds, Amount(Filled(ds))))
  {
  }

  // ---- A delete on a tree that was never loaded ----------------------------------------

  /** If nothing is dropped, exactly the key goes. */
  lemma {:induction false} DeletedRemoves(h: Codec, t: Tree, key: Nibbles)
    requires IsKey(key) && Node(t)
    ensures Node(Deleted(h, t, key))
    ensures !Drops(h, t, key) ==> Removed(h, t, key, Deleted(h, t, key))
    ensures Within(t, key, Deleted(h, t, key))
    decreases |key|, 1
  {
    match t
    case Empty =>
    case Void =>
    case Short(k, c) =>
      if k == key {
        OnlyKey(h, t, key, |k|);
      } else if !Passes(k, key) {
        NotBelow(h, t, key, |k|);
      } else {
        OpenPart(k, c, key);
        DeletedRemoves(h, c, key[|k|..]);
        JoinNode(k, Deleted(h, c, key[|k|..]));
        JoinWithin(k, c, key, Deleted(h, c, key[|k|..]));
        if !Drops(h, t, key) { JoinRemoved(h, k, c, key, Deleted(h, c, key[|k|..])); }
      }
    case Full(cs) => DeletedRemovesFull(h, cs, key);
  }

  lemma {:induction false} DeletedRemovesFull(h: Codec, cs: seq<Tree>, key: Nibbles)
    requires IsKey(key) && Node(Full(cs))
    ensures Node(Deleted(h, Full(cs), key))
    ensures !Drops(h, Full(cs), key) ==> Removed(h, Full(cs), key, Deleted(h, Full(cs), key))
    ensures Within(Full(cs), key, Deleted(h, Full(cs), key))
    decreases |key|, 0
  {
    KeyTail(key, 0);
    var i := key[0];
    var child := Deleted(h, cs[i], key[1..]);
    var ds := cs[i := child];
    if i < 16 { DeletedRemoves(h, cs[i], key[1..]); }
    var a := Amount(Filled(ds));
    FoldNode(ds, a, Flat(h, ds, a));
    FoldBuilt(h, cs, key, child);
    SlotWithin(cs, key, child);
    FoldWithin(h, Full(cs), key, ds, a);
    if !Drops(h, Full(cs), key) {
      assert LikeAll(h, cs, cs);
      SlotRemoved(h, cs, key, cs, child);
      FoldRemoved(h, Full(cs), key, ds, a);
    }
  }

  /** Nothing is left of a canonical tree once `key` is deleted. */
  predicate Vanishes(t: Tree, key: Nibbles) {
    key == [] || t.Empty? || (t.Short? && t.k == key)
  }

  /** Deleting `key` from a canonical tree empties one of two occupied slots while the
      other holds a two-item node whose payload is inside it. */
  predicate Lossy(h: Codec, t: Tree, key: Nibbles)
    requires Insertable(t, key)
    decreases |key|
  {
    key != [] &&
    match t {
      case Empty => false
      case Void => false
      case Short(k, c) => Passes(k, key) && (Below(k, c, key); Lossy(h, c, key[|k|..]))
      case Full(cs) =>
        KeyTail(key, 0);
        var i := key[0];
        if Vanishes(cs[i], key[1..]) then
          !cs[i].Empty? && exists j | 0 <= j < 16 && j != i :: Sole(cs, i, j) && Loses(h, cs, j)
        else Lossy(h, cs[i], key[1..])
    }
  }

  /** Some other key lost its value. */
  ghost predicate Damaged(t: Tree, key: Nibbles, u: Tree) {
    exists q | IsKey(q) :: q != key && Lookup(t, q) != [] && Lookup(u, q) == []
  }

  /** What a delete does to a canonical tree. */
  ghost predicate Foreseen(h: Codec, t: Tree, key: Nibbles)
    requires Insertable(t, key)
  {
    var u := Deleted(h, t, key);
    && (u.Empty? <==> Vanishes(t, key))
    && (Drops(h, t, key) <==> Lossy(h, t, key))
    && (key != [] && !Lossy(h, t, key) ==> Canonical(u))
    && (Lossy(h, t, key) ==> Damaged(t, key, u))
  }

  /** On a canonical tree a delete is lossy exactly where `Lossy` says so: otherwise a
      canonical tree is left, and if it is, some other key is lost. */
  lemma {:induction false} DeletedCanonical(h: Codec, t: Tree, key: Nibbles)
    requires IsKey(key) && Canonical(t)
    ensures Insertable(t, key) && Foreseen(h, t, key)
    decreases |key|, 2
  {
    CanonicalNode(t);
    match t
    case Empty =>
    case Short(k, c) => if Passes(k, key) { DeletedBelow(h, k, c, key); }
    case Full(cs) => DeletedBranch(h, cs, key);
  }

  lemma {:induction false} DeletedBelow(h: Codec, k: Nibbles, c: Tree, key: Nibbles)
    requires Canonical(Short(k, c)) && Node(Short(k, c)) && IsKey(key) && Passes(k, key)
    ensures Foreseen(h, Short(k, c), key)
    decreases |key|, 0
  {
    OpenPart(k, c, key);
    DeletedCanonical(h, c, key[|k|..]);
    DeletedRemoves(h, c, key[|k|..]);
    var c' := Deleted(h, c, key[|k|..]);
    JoinNode(k, c');
    if Damaged(c, key[|k|..], c') { JoinDamaged(k, c, key, c'); }
  }

  lemma {:induction false} JoinDamaged(k: Nibbles, c: Tree, key: Nibbles, c': Tree)
    requires k != [] && IsPath(k) && k < key && Node(c') && Damaged(c, key[|k|..], c')
    ensures Damaged(Short(k, c), key, Join(k, c'))
  {
    var q :| IsKey(q) && q != key[|k|..] && Lookup(c, q) != [] && Lookup(c', q) == [];
    ShortAt(k, c, q);
    ShortAt(k, c', q);
    JoinLookup(k, c', k + q);
  }

  lemma {:induction false} DeletedBranch(h: Codec, cs: seq<Tree>, key: Nibbles)
    requires Canonical(Full(cs)) && Node(Full(cs)) && IsKey(key)
    ensures Foreseen(h, Full(cs), key)
    decreases |key|, 1
  {
    KeyTail(key, 0);
    var i := key[0];
    if i < 16 { DeletedCanonical(h, cs[i], key[1..]); }
    var child := Deleted(h, cs[i], key[1..]);
    FoldBuilt(h, cs, key, child);
    if !Vanishes(cs[i], key[1..]) {
      FoldKept(h, cs, key, child);
    } else if cs[i].Empty? {
      assert cs[i := child] == cs;
      ForkedCount(cs);
    } else {
      FoldVanished(h, cs, key, Amount(Filled(cs[i := Empty])));
    }
  }

  lemma {:induction false} ForkedCount(cs: seq<Tree>)
    requires Forked(cs)
    ensures Amount(Filled(cs)) == -2
  {
    var i, j :| 0 <= i < j < |cs| && !cs[i].Empty? && !cs[j].Empty?;
    assert Filled(cs)[i] && Filled(cs)[j];
  }

  lemma {:induction false} SlotDamaged(cs: seq<Tree>, key: Nibbles, child: Tree)
    requires |cs| == 17 && IsKey(key) && key[0] < 16 && Damaged(cs[key[0]], key[1..], child)
    ensures Damaged(Full(cs), key, Full(cs[key[0] := child]))
  {
    var q :| IsKey(q) && q != key[1..] && Lookup(cs[key[0]], q) != [] && Lookup(child, q) == [];
    FullAt(cs, key[0], q);
    FullAt(cs[key[0] := child], key[0], q);
  }

  /** The branch keeps two slots. */
  lemma {:induction false} FoldKept(h: Codec, cs: seq<Tree>, key: Nibbles, child: Tree)
    requires Canonical(Full(cs)) && Node(Full(cs)) && IsKey(key) && Insertable(cs[key[0]], key[1..])
    requires !Vanishes(cs[key[0]], key[1..]) && child == Deleted(h, cs[key[0]], key[1..]) && key[0] < 16
    requires Foreseen(h, cs[key[0]], key[1..])
    ensures Foreseen(h, Full(cs), key)
  {
    var ds := cs[key[0] := child];
    var i, j :| 0 <= i < j < |cs| && !cs[i].Empty? && !cs[j].Empty?;
    assert !ds[i].Empty? && !ds[j].Empty?;
    ForkedCount(ds);
    FoldBuilt(h, cs, key, child);
    if Lossy(h, cs[key[0]], key[1..]) { SlotDamaged(cs, key, child); }
  }

  /** The keys below the dropped payload are gone. */
  lemma {:induction false} FoldDamaged(h: Codec, cs: seq<Tree>, key: Nibbles, a: nat)
    requires |cs| == 17 && a < 16 && Canonical(cs[a]) && Loses(h, cs, a) && IsKey(key) && key[0] != a
    ensures Damaged(Full(cs), key, Short([a] + cs[a].k, Empty))
  {
    var k, c := cs[a].k, cs[a].c;
    var w := k + Witness(c);
    ShortAt(k, c, Witness(c));
    FullAt(cs, a, w);
    assert Lookup(Short([a] + k, Empty), [a] + w) == [];
  }

  /** One of its slots is emptied. */
  lemma {:induction false} FoldVanished(h: Codec, cs: seq<Tree>, key: Nibbles, a: int)
    requires Canonical(Full(cs)) && Node(Full(cs)) && IsKey(key) && Insertable(cs[key[0]], key[1..])
    requires !cs[key[0]].Empty? && Vanishes(cs[key[0]], key[1..])
    requires a == Amount(Filled(cs[key[0] := Empty]))
    requires Deleted(h, cs[key[0]], key[1..]) == Empty && !Drops(h, cs[key[0]], key[1..])
    ensures Foreseen(h, Full(cs), key)
  {
    var i := key[0];
    var ds := cs[i := Empty];
    FoldBuilt(h, cs, key, Empty);
    SoleSlot(h, cs, i, a);
    if Loses(h, ds, a) {
      FoldDamaged(h, cs, key, a);
    } else {
      assert !Flat(h, ds, a);
      FoldCanonical(ds, a);
    }
  }

  lemma {:induction false} SoleSlot(h: Codec, cs: seq<Tree>, i: nat, a: int)
    requires Canonical(Full(cs)) && i < 17 && !cs[i].Empty? && a == Amount(Filled(cs[i := Empty]))
    ensures a != -1 && a != i && (a == -2 ==> Forked(cs[i := Empty])) && (a >= 0 ==> !cs[a].Empty?)
    ensures Loses(h, cs[i := Empty], a) <==> exists j | 0 <= j < 16 && j != i :: Sole(cs, i, j) && Loses(h, cs, j)
  {
    var ds := cs[i := Empty];
    var p, q :| 0 <= p < q < |cs| && !cs[p].Empty? && !cs[q].Empty?;
    assert p != i ==> Filled(ds)[p];
    assert q != i ==> Filled(ds)[q];
    if a >= 0 {
      assert Filled(ds)[a];
      forall m | 0 <= m < 17 && m != i && m != a ensures cs[m].Empty? { assert !Filled(ds)[m]; }
      assert Sole(cs, i, a);
      assert forall j | 0 <= j < 17 && j != i && Sole(cs, i, j) :: j == a;
    } else {
      var x, y :| 0 <= x < y < |ds| && Filled(ds)[x] && Filled(ds)[y];
      assert !ds[x].Empty? && !ds[y].Empty?;
      assert forall j | 0 <= j < 17 :: !Sole(cs, i, j);
    }
  }

  // ---- Keys of one length ---------------------------------------------------------------

  ghost predicate Uniform(t: Tree, n: nat) {
    forall q | IsKey(q) && Lookup(t, q) != [] :: |q| == n
  }

  lemma UniformBelow(k: Nibbles, c: Tree, n: nat)
    requires k != [] && IsPath(k) && Uniform(Short(k, c), n) && |k| <= n
    ensures Uniform(c, n - |k|)
  {
    forall q | IsKey(q) && Lookup(c, q) != []
      ensures |q| == n - |k|
    {
      ShortAt(k, c, q);
    }
  }

  lemma UniformSlot(cs: seq<Tree>, i: nat, n: nat)
    requires i < |cs| && i < 16 && Uniform(Full(cs), n) && n > 0
    ensures Uniform(cs[i], n - 1)
  {
    forall q | IsKey(q) && Lookup(cs[i], q) != []
      ensures |q| == n - 1
    {
      FullAt(cs, i, q);
    }
  }

  /** Nodes as updates with values and deletes leave them where all keys have `n` nibbles: no
      key part is longer than what is left of a key, and none ends in an empty value. */
  predicate Plain(t: Tree, n: nat) {
    match t
    case Empty => true
    case Void => false
    case Val(v) => v != []
    case Short(k, c) => (if Terminated(k) then |k| <= n && !c.Empty? else |k| < n) && Plain(c, n - |k|)
    case Full(cs) => n > 1 && forall i | 0 <= i < |cs| :: Plain(cs[i], n - 1)
  }

  lemma {:induction false} UniformPlain(t: Tree, n: nat)
    requires Canonical(t) && Uniform(t, n)
    ensures Plain(t, n)
    decreases t
  {
    match t
    case Empty =>
    case Short(k, c) =>
      var w := Witness(t);
      ShortBinds(k, c, w);
      if c.Full? {
        UniformBelow(k, c, n);
        UniformPlain(c, n - |k|);
      }
    case Full(cs) =>
      var w := Witness(t);
      forall i | 0 <= i < 16 ensures Plain(cs[i], n - 1) {
        UniformSlot(cs, i, n);
        UniformPlain(cs[i], n - 1);
      }
  }

  /** No slice bound is passed. */
  lemma {:induction false} PlainRoom(t: Tree, key: Nibbles, room: nat)
    requires Insertable(t, key) && Plain(t, |key|)
    ensures !Overruns(t, key, room)
    decreases |key|
  {
    if key != [] {
      match t
      case Empty =>
      case Short(k, c) =>
        if Passes(k, key) {
          OpenPart(k, c, key);
          PlainRoom(c, key[|k|..], room);
        }
      case Full(cs) =>
        KeyTail(key, 0);
        PlainRoom(cs[key[0]], key[1..], room);
    }
  }

  /** When all keys are as long as the one deleted, no slice bound is passed. */
  lemma {:induction false} NoOverrun(t: Tree, key: Nibbles, room: nat)
    requires IsKey(key) && Canonical(t) && Uniform(t, |key|)
    ensures Insertable(t, key) && !Overruns(t, key, room)
  {
    CanonicalNode(t);
    UniformPlain(t, |key|);
    PlainRoom(t, key, room);
  }

  lemma {:induction false} PlainInsert(t: Tree, key: Nibbles, v: seq<byte>)
    requires Insertable(t, key) && Plain(t, |key|) && v != []
    ensures Plain(Insert(t, key, Val(v)), |key|)
    decreases |key|, 1
  {
    if key != [] {
      match t
      case Empty =>
      case Short(k, c) => PlainInsertShort(k, c, key, v);
      case Full(cs) =>
        KeyTail(key, 0);
        PlainInsert(cs[key[0]], key[1..], v);
        PlainSlot(cs, key[0], Insert(cs[key[0]], key[1..], Val(v)), |key|);
    }
  }

  lemma PlainSlot(cs: seq<Tree>, i: nat, child: Tree, n: nat)
    requires Plain(Full(cs), n) && i < |cs| && Plain(child, n - 1)
    ensures Plain(Full(cs[i := child]), n)
  {
  }

  lemma {:induction false} PlainInsertShort(k: Nibbles, c: Tree, key: Nibbles, v: seq<byte>)
    requires Node(Short(k, c)) && IsKey(key) && Plain(Short(k, c), |key|) && v != []
    ensures Plain(Insert(Short(k, c), key, Val(v)), |key|)
    decreases |key|, 0
  {
    if k != key {
      InsertShort(k, c, key, Val(v));
      var m := Match(key, k);
      if m == |k| { PlainInsert(c, key[m..], v); } else { PlainSplit(k, c, key, v, m); }
    }
  }

  lemma {:induction false} PlainSplit(k: Nibbles, c: Tree, key: Nibbles, v: seq<byte>, m: nat)
    requires m < |k| <= |key| && k[m] < 17 && key[m] < 17 && k[m] != key[m] && Plain(Short(k, c), |key|) && v != []
    requires IsKey(key) && (IsKey(k) || IsPath(k))
    ensures Plain(Split(k, c, key, Val(v), m), |key| - m)
  {
    var n := |key| - m - 1;
    assert n > 0;
    PlainRest(k, c, m, n);
    PlainRest(key, Val(v), m, n);
  }

  /** What is left of a key part behind its m-th nibble. */
  lemma {:induction false} PlainRest(k: Nibbles, c: Tree, m: nat, n: nat)
    requires m < |k| && Plain(Short(k, c), m + 1 + n)
    ensures Plain(NewLeaf(k[m + 1..], c), n)
  {
    var r := k[m + 1..];
    if r != [] { assert r[|r| - 1] == k[|k| - 1]; }
  }

  lemma {:induction false} PlainDeleted(h: Codec, t: Tree, key: Nibbles)
    requires IsKey(key) && Node(t) && Plain(t, |key|)
    ensures Plain(Deleted(h, t, key), |key|)
    decreases |key|, 1
  {
    match t
    case Empty =>
    case Short(k, c) =>
      if Passes(k, key) {
        OpenPart(k, c, key);
        PlainDeleted(h, c, key[|k|..]);
        DeletedRemoves(h, c, key[|k|..]);
        PlainJoin(k, Deleted(h, c, key[|k|..]), |key|);
      }
    case Full(cs) => PlainDeletedFull(h, cs, key);
  }

  lemma {:induction false} PlainJoin(k: Nibbles, c: Tree, n: nat)
    requires IsPath(k) && k != [] && |k| < n && Node(c) && Plain(c, n - |k|)
    ensures Plain(Join(k, c), n)
  {
    if c.Short? { assert (k + c.k)[|k + c.k| - 1] == c.k[|c.k| - 1]; }
  }

  lemma {:induction false} PlainDeletedFull(h: Codec, cs: seq<Tree>, key: Nibbles)
    requires IsKey(key) && Node(Full(cs)) && Plain(Full(cs), |key|)
    ensures Plain(Deleted(h, Full(cs), key), |key|)
    decreases |key|, 0
  {
    KeyTail(key, 0);
    var child := Deleted(h, cs[key[0]], key[1..]);
    PlainDeleted(h, cs[key[0]], key[1..]);
    DeletedRemoves(h, cs[key[0]], key[1..]);
    FoldBuilt(h, cs, key, child);
    PlainSlot(cs, key[0], child, |key|);
    PlainFold(h, cs[key[0] := child], |key|);
  }

  lemma {:induction false} PlainFold(h: Codec, ds: seq<Tree>, n: nat)
    requires Node(Full(ds)) && Plain(Full(ds), n)
    ensures Plain(FoldOf(h, ds, Amount(Filled(ds))), n)
  {
    var a := Amount(Filled(ds));
    if a >= 0 {
      assert Filled(ds)[a] && Plain(ds[a], n - 1);
      if a < 16 && Flat(h, ds, a) { assert !Terminated(ds[a].k); }
    }
  }

  // ---- A delete on a tree of which anything may be loaded ----------------------------------

  /** Nothing can be dropped and no branch on the path is left with nothing: exactly the key
      goes, whichever branches fold. In any case nothing new is bound. */
  ghost predicate Exact(h: Codec, t: Tree, key: Nibbles, u: Tree)
    requires Insertable(t, key)
  {
    && Node(u) && Within(t, key, u)
    && (!CanDrop(h, t, key) ==> Removed(h, t, key, u) && (Plain(t, |key|) ==> Plain(u, |key|)))
  }

  lemma {:induction false} LeftOverExact(h: Codec, t: Tree, key: Nibbles, u: Tree)
    requires h.mode != Faded && IsKey(key) && Node(t) && u in LeftOver(h, t, key)
    ensures Exact(h, t, key, u)
    decreases |key|, 1
  {
    match t
    case Empty =>
    case Void =>
    case Short(k, c) =>
      if k == key {
        OnlyKey(h, t, key, |k|);
        RemovedWithin(h, t, key, u);
      } else if Passes(k, key) {
        OpenPart(k, c, key);
        var c' :| c' in LeftOver(h, c, key[|k|..]) && u == Join(k, c');
        LeftOverExact(h, c, key[|k|..], c');
        JoinExact(h, k, c, key, c');
      } else {
        NotBelow(h, t, key, |k|);
        RemovedWithin(h, t, key, u);
      }
    case Full(cs) => LeftOverExactFull(h, cs, key, u);
  }

  lemma {:induction false} JoinExact(h: Codec, k: Nibbles, c: Tree, key: Nibbles, c': Tree)
    requires h.mode != Faded && Node(Short(k, c)) && IsKey(key) && Passes(k, key) && Insertable(c, key[|k|..])
    requires Exact(h, c, key[|k|..], c')
    ensures Exact(h, Short(k, c), key, Join(k, c'))
  {
    OpenPart(k, c, key);
    JoinNode(k, c');
    JoinWithin(k, c, key, c');
    if !CanDrop(h, c, key[|k|..]) {
      JoinRemoved(h, k, c, key, c');
      if Plain(Short(k, c), |key|) { PlainJoin(k, c', |key|); }
    }
  }

  lemma {:induction false} LeftOverExactFull(h: Codec, cs: seq<Tree>, key: Nibbles, u: Tree)
    requires h.mode != Faded && IsKey(key) && Node(Full(cs)) && u in LeftOver(h, Full(cs), key)
    ensures Exact(h, Full(cs), key, u)
    decreases |key|, 0
  {
    KeyTail(key, 0);
    var i := key[0];
    var child :| child in LeftOver(h, cs[i], key[1..]) && u in Foldings(h, cs, i, child);
    var a :| -2 <= a < 17 && Single(cs[i := child], a) && u == FoldOf(h, cs[i := child], a);
    if i < 16 { LeftOverExact(h, cs[i], key[1..], child); }
    FoldExact(h, cs, key, child, a);
  }

  lemma {:induction false} FoldExact(h: Codec, cs: seq<Tree>, key: Nibbles, child: Tree, a: int)
    requires h.mode != Faded && IsKey(key) && Node(Full(cs)) && Insertable(cs[key[0]], key[1..])
    requires if key[1..] == [] then child.Empty? && key[0] == 16 else key[0] < 16 && Exact(h, cs[key[0]], key[1..], child)
    requires -2 <= a < 17 && Single(cs[key[0] := child], a)
    ensures Exact(h, Full(cs), key, FoldOf(h, cs[key[0] := child], a))
  {
    var i := key[0];
    var ds := cs[i := child];
    assert Node(Full(ds));
    FoldNode(ds, a, Flat(h, ds, a));
    SlotWithin(cs, key, child);
    FoldWithin(h, Full(cs), key, ds, a);
    if !CanDrop(h, Full(cs), key) {
      assert !Narrow(h, cs, i);
      NoLoss(h, cs, i, child, a);
      assert LikeAll(h, cs, cs);
      SlotRemoved(h, cs, key, cs, child);
      FoldRemoved(h, Full(cs), key, ds, a);
      if Plain(Full(cs), |key|) {
        PlainSlot(cs, i, child, |key|);
        PlainFoldAt(h, ds, a, |key|);
      }
    }
  }

  /** Where nothing is narrow, a fold loses no node and its slot is not empty. */
  lemma {:induction false} NoLoss(h: Codec, cs: seq<Tree>, i: nat, child: Tree, a: int)
    requires |cs| == 17 && i < 17 && -2 <= a < 17 && Single(cs[i := child], a) && !Narrow(h, cs, i)
    ensures !Loses(h, cs[i := child], a)
    ensures 0 <= a && i < 16 ==> !cs[i := child][a].Empty?
  {
    var ds := cs[i := child];
    if a >= 0 {
      forall m | 0 <= m < 17 && m != i && m != a ensures cs[m].Empty? { assert ds[m] == cs[m]; }
      assert Sole(cs, i, a);
      if i < 16 && ds[a].Empty? {
        assert a != i ==> cs[a].Empty?;
        assert Sole(cs, i, i);
      }
    }
  }

  lemma {:induction false} PlainFoldAt(h: Codec, ds: seq<Tree>, a: int, n: nat)
    requires Node(Full(ds)) && -2 <= a < 17 && Plain(Full(ds), n)
    requires !Loses(h, ds, a) && (0 <= a ==> !ds[a].Empty?)
    ensures Plain(FoldOf(h, ds, a), n)
  {
    if a >= 0 {
      assert Plain(ds[a], n - 1);
      if a < 16 && ds[a].Short? { assert ([a] + ds[a].k)[|ds[a].k|] == ds[a].k[|ds[a].k| - 1]; }
    }
  }

  /** If no branch folds, exactly the key goes. */
  lemma {:induction false} KeptExact(h: Codec, t: Tree, key: Nibbles)
    requires h.mode != Faded && IsKey(key) && Node(t)
    ensures Node(Kept(t, key)) && Removed(h, t, key, Kept(t, key))
    ensures Plain(t, |key|) ==> Plain(Kept(t, key), |key|)
    decreases |key|, 1
  {
    match t
    case Empty =>
    case Void =>
    case Short(k, c) =>
      if k == key {
        OnlyKey(h, t, key, |k|);
      } else if Passes(k, key) {
        KeptBelow(h, k, c, key);
      } else {
        NotBelow(h, t, key, |k|);
      }
    case Full(cs) => KeptFull(h, cs, key);
  }

  lemma {:induction false} KeptBelow(h: Codec, k: Nibbles, c: Tree, key: Nibbles)
    requires h.mode != Faded && IsKey(key) && Node(Short(k, c)) && Passes(k, key)
    ensures Node(Kept(Short(k, c), key)) && Removed(h, Short(k, c), key, Kept(Short(k, c), key))
    ensures Plain(Short(k, c), |key|) ==> Plain(Kept(Short(k, c), key), |key|)
    decreases |key|, 0
  {
    OpenPart(k, c, key);
    var c' := Kept(c, key[|k|..]);
    KeptExact(h, c, key[|k|..]);
    JoinNode(k, c');
    JoinRemoved(h, k, c, key, c');
    if Plain(Short(k, c), |key|) { PlainJoin(k, c', |key|); }
  }

  lemma {:induction false} KeptFull(h: Codec, cs: seq<Tree>, key: Nibbles)
    requires h.mode != Faded && IsKey(key) && Node(Full(cs))
    ensures Node(Kept(Full(cs), key)) && Removed(h, Full(cs), key, Kept(Full(cs), key))
    ensures Plain(Full(cs), |key|) ==> Plain(Kept(Full(cs), key), |key|)
    decreases |key|, 0
  {
    KeyTail(key, 0);
    var child := Kept(cs[key[0]], key[1..]);
    if key[0] < 16 { KeptExact(h, cs[key[0]], key[1..]); }
    KeptSlot(h, cs, key, child);
    if Plain(Full(cs), |key|) { PlainSlot(cs, key[0], child, |key|); }
  }

  lemma {:induction false} KeptSlot(h: Codec, cs: seq<Tree>, key: Nibbles, child: Tree)
    requires h.mode != Faded && IsKey(key) && Node(Full(cs))
    requires if key[1..] == [] then child.Empty? else Node(child) && Removed(h, cs[key[0]], key[1..], child)
    ensures Node(Full(cs[key[0] := child])) && Removed(h, Full(cs), key, Full(cs[key[0] := child]))
  {
    assert LikeAll(h, cs, cs);
    SlotRemoved(h, cs, key, cs, child);
  }

  // ---- A payload that is dropped ----------------------------------------------------------

  function Leaf(v: byte): Tree {
    Short([16], Val([v]))
  }

  /** Two keys that differ in the last nibble. */
  function Twins(b: byte, c: byte): Tree {
    Full([Leaf(b), Leaf(c)] + seq(15, _ => Empty))
  }

  /** Three keys that go on with `z`: 0z0, 1z0 and 1z1. */
  function Family(z: Nibbles, a: byte, b: byte, c: byte): Tree {
    Full([Short(z + [0, 16], Val([a])), Short(z, Twins(b, c))] + seq(15, _ => Empty))
  }

  lemma {:induction false} LeafLength(h: Codec, v: byte)
    requires v <= 0x7f
    ensures NodeContent(h, Leaf(v)) == L([S([0x20]), S([v])])
    ensures |EncodeContent(NodeContent(h, Leaf(v)))| == 3
  {
    var k: Nibbles := [16];
    assert Terminated(k) && Body(k) == [] && Flagged(k) == [2, 0];
    var f: Nibbles := [2, 0];
    assert f[2..] == [] && Pack(f) == [0x20];
    assert CompactEncode(k) == [0x20];
    assert NodeContent(h, Short(k, Val([v]))) == L([S(CompactEncode(k)), S([v])]);
    var cs := [S([0x20]), S([v])];
    assert cs[1..] == [S([v])] && cs[1..][1..] == [];
    assert EncodeContents(cs[1..]) == [v];
    assert EncodeContents(cs) == [0x20] + [v];
    assert EncodeContent(L(cs)) == [0xc2] + [0x20, v];
  }

  lemma {:induction false} TwinsInline(h: Codec, sha3: seq<byte> -> seq<byte>, b: byte, c: byte)
    requires h == Thelonious(sha3, h.mode, h.base) && b <= 0x7f && c <= 0x7f
    ensures h.inline(NodeContent(h, Twins(b, c)))
  {
    LeafLength(h, b);
    LeafLength(h, c);
    var cs := Refs(h, Twins(b, c).cs);
    assert cs[0] == NodeContent(h, Leaf(b)) && cs[1] == NodeContent(h, Leaf(c));
    EmptySlotsLength(cs[2..]);
    assert cs[1..][1..] == cs[2..];
    assert |EncodeContents(cs)| == 3 + |EncodeContents(cs[1..])|;
    assert |EncodeContents(cs[1..])| == 3 + 15;
  }

  /** A delete that folds a branch of two slots into a node around its payload. */
  lemma {:induction false} FoldLost(h: Codec, cs: seq<Tree>, key: Nibbles, j: nat)
    requires Node(Full(cs)) && IsKey(key) && j < 16 && j != key[0]
    requires cs[key[0]].Short? && cs[key[0]].k == key[1..] && Sole(cs, key[0], j) && Loses(h, cs, j)
    ensures Drops(h, Full(cs), key) && Deleted(h, Full(cs), key) == Short([j] + cs[j].k, Empty)
  {
    KeyTail(key, 0);
    FoldBuilt(h, cs, key, Empty);
    var ds := cs[key[0] := Empty];
    assert Filled(ds)[j];
    assert forall m | 0 <= m < 17 && m != j :: !Filled(ds)[m];
  }

  lemma {:induction false} NothingBehind(k: Nibbles, q: Nibbles)
    ensures Lookup(Short(k, Empty), q) == []
  {
  }

  /** With the codec of the source, which is sound if the hash function is, deleting the
      key 0z0 loses 1z0 and 1z1: their branch takes 22 bytes. */
  lemma {:induction false} InlinePayloadLost(sha3: seq<byte> -> seq<byte>, z: Nibbles, a: byte, b: byte, c: byte)
    requires forall e :: |sha3(e)| >= 32
    requires forall e, f :: sha3(e) == sha3(f) ==> e == f
    requires IsPath(z) && z != [] && b <= 0x7f && c <= 0x7f
    ensures var h, t, key := Thelonious(sha3, Built, Read), Family(z, a, b, c), [0] + z + [0, 16];
            && Sound(h) && Canonical(t) && IsKey(key) && Insertable(t, key) && Lossy(h, t, key)
            && Lookup(t, [1] + z + [0, 16]) == [b] && Lookup(t, [1] + z + [1, 16]) == [c]
            && Drops(h, t, key) && forall q | IsKey(q) :: Lookup(Deleted(h, t, key), q) == []
  {
    var h, t, key := Thelonious(sha3, Built, Read), Family(z, a, b, c), [0] + z + [0, 16];
    TheloniousSound(sha3, Built, Read);
    TwinsInline(h, sha3, b, c);
    FamilyCanonical(z, a, b, c);
    CanonicalNode(t);
    FamilyBinds(z, a, b, c);
    FamilyLost(h, z, a, b, c);
    DeletedCanonical(h, t, key);
  }

  lemma {:induction false} FamilyBinds(z: Nibbles, a: byte, b: byte, c: byte)
    requires IsPath(z) && z != []
    ensures Lookup(Family(z, a, b, c), [1] + z + [0, 16]) == [b]
    ensures Lookup(Family(z, a, b, c), [1] + z + [1, 16]) == [c]
  {
    TwinBinds(b, c);
    forall i: nat | i < 2
      ensures Lookup(Family(z, a, b, c), [1] + z + [i, 16]) == Lookup(Twins(b, c), [i, 16])
    {
      ShortAt(z, Twins(b, c), [i, 16]);
      FullAt(Family(z, a, b, c).cs, 1, z + [i, 16]);
      assert [1] + (z + [i, 16]) == [1] + z + [i, 16];
    }
  }

  lemma {:induction false} TwinBinds(b: byte, c: byte)
    ensures Lookup(Twins(b, c), [0, 16]) == [b] && Lookup(Twins(b, c), [1, 16]) == [c]
  {
    LeafBinds(b);
    LeafBinds(c);
    FullAt(Twins(b, c).cs, 0, [16]);
    FullAt(Twins(b, c).cs, 1, [16]);
    assert [0] + [16] == [0, 16] && [1] + [16] == [1, 16];
  }

  lemma {:induction false} LeafBinds(b: byte)
    ensures Lookup(Leaf(b), [16]) == [b]
  {
    LeafLookup([16], Val([b]), [16]);
  }

  /** What is left is a key part with nothing behind it. */
  lemma {:induction false} FamilyLost(h: Codec, z: Nibbles, a: byte, b: byte, c: byte)
    requires IsPath(z) && z != [] && Node(Family(z, a, b, c)) && h.inline(NodeContent(h, Twins(b, c)))
    ensures var key := [0] + z + [0, 16];
            && IsKey(key) && Drops(h, Family(z, a, b, c), key)
            && forall q | IsKey(q) :: Lookup(Deleted(h, Family(z, a, b, c), key), q) == []
  {
    var key := [0] + z + [0, 16];
    var cs := Family(z, a, b, c).cs;
    assert key[1..] == z + [0, 16];
    FoldLost(h, cs, key, 1);
    forall q | IsKey(q) ensures Lookup(Short([1] + z, Empty), q) == [] { NothingBehind([1] + z, q); }
  }

  lemma {:induction false} FamilyCanonical(z: Nibbles, a: byte, b: byte, c: byte)
    requires IsPath(z) && z != []
    ensures Canonical(Family(z, a, b, c))
  {
    var inner, outer := Twins(b, c).cs, Family(z, a, b, c).cs;
    assert !inner[0].Empty? && !inner[1].Empty? && !outer[0].Empty? && !outer[1].Empty?;
    assert forall i | 0 <= i < 16 :: Canonical(inner[i]);
    assert Canonical(Twins(b, c));
    assert IsKey(z + [0, 16]);
    assert forall i | 0 <= i < 16 :: Canonical(outer[i]);
  }

  lemma {:induction false} FamilyRoom(z: Nibbles, a: byte, b: byte, c: byte, room: nat)
    requires IsPath(z) && z != []
    ensures var key := [0] + z + [0, 16];
            Insertable(Family(z, a, b, c), key) && !Overruns(Family(z, a, b, c), key, room)
  {
    FamilyCanonical(z, a, b, c);
    CanonicalNode(Family(z, a, b, c));
    var key := [0] + z + [0, 16];
    assert key[1..] == z + [0, 16];
  }

  /** It is what three updates build. */
  lemma {:induction false} FamilyBuilt(z: Nibbles, a: byte, b: byte, c: byte)
    requires IsPath(z) && z != []
    ensures var t1 := Short([0] + z + [0, 16], Val([a]));
            && Node(t1) && IsKey([1] + z + [0, 16]) && IsKey([1] + z + [1, 16])
            && var t2 := Insert(t1, [1] + z + [0, 16], Val([b]));
               Node(t2) && Insert(t2, [1] + z + [1, 16], Val([c])) == Family(z, a, b, c)
  {
    var k0, k1, k2 := [0] + z + [0, 16], [1] + z + [0, 16], [1] + z + [1, 16];
    var t1 := Short(k0, Val([a]));
    TwoBuilt(z, a, b);
    assert IsKey(k2);
    FamilyThird(z, a, b, c, Insert(t1, k1, Val([b])), k2);
  }

  lemma {:induction false} FamilyThird(z: Nibbles, a: byte, b: byte, c: byte, t2: Tree, key: Nibbles)
    requires IsPath(z) && z != [] && Node(t2) && IsKey(key) && key == [1] + z + [1, 16]
    requires t2 == Full(Blank()[0 := Short(z + [0, 16], Val([a]))][1 := Short(z + [0, 16], Val([b]))])
    ensures Insert(t2, key, Val([c])) == Family(z, a, b, c)
  {
    assert key[0] == 1 && key[1..] == z + [1, 16];
    TwinsBuilt(z, b, c);
    ThirdBuilt(Blank()[0 := Short(z + [0, 16], Val([a]))], Short(z + [0, 16], Val([b])), key, Val([c]));
  }

  /** An update below the second slot. */
  lemma {:induction false} ThirdBuilt(cs: seq<Tree>, t: Tree, key: Nibbles, x: Tree)
    requires |cs| == 17 && IsKey(key) && key[0] == 1 && key[1..] != [] && Node(t) && Node(Full(cs[1 := t]))
    ensures IsKey(key[1..]) && Insert(Full(cs[1 := t]), key, x) == Full(cs[1 := Insert(t, key[1..], x)])
  {
    KeyTail(key, 0);
    assert cs[1 := t][1 := Insert(t, key[1..], x)] == cs[1 := Insert(t, key[1..], x)];
  }

  lemma {:induction false} TwoBuilt(z: Nibbles, a: byte, b: byte)
    requires IsPath(z) && z != []
    ensures var t1 := Short([0] + z + [0, 16], Val([a]));
            && Node(t1) && IsKey([1] + z + [0, 16])
            && var t2 := Insert(t1, [1] + z + [0, 16], Val([b]));
               Node(t2) && t2 == Full(Blank()[0 := Short(z + [0, 16], Val([a]))][1 := Short(z + [0, 16], Val([b]))])
  {
    var k0, k1 := [0] + z + [0, 16], [1] + z + [0, 16];
    var t1 := Short(k0, Val([a]));
    assert IsKey(k0) && IsKey(k1) && k0[0] != k1[0] && Node(t1);
    InsertShort(k0, Val([a]), k1, Val([b]));
    InsertNode(t1, k1, Val([b]));
    assert k0[1..] == z + [0, 16] && k1[1..] == z + [0, 16];
    assert Match(k1, k0) == 0;
  }

  lemma {:induction false} TwinsBuilt(z: Nibbles, b: byte, c: byte)
    requires IsPath(z) && z != []
    ensures Node(Short(z + [0, 16], Val([b]))) && IsKey(z + [1, 16])
    ensures Insert(Short(z + [0, 16], Val([b])), z + [1, 16], Val([c])) == Short(z, Twins(b, c))
  {
    var k, key, m := z + [0, 16], z + [1, 16], |z|;
    assert IsKey(k) && IsKey(key);
    InsertShort(k, Val([b]), key, Val([c]));
    assert key[..m] == z == k[..m] && k[m] == 0 && key[m] == 1;
    assert Match(key, k) == m;
    assert k[m + 1..] == [16] && key[m + 1..] == [16];
    assert Split(k, Val([b]), key, Val([c]), m).cs == Twins(b, c).cs;
  }
}
