/** What the lossy delete of `monktrie/trie.go` does to storage: three slots such that clearing one
    loses the other two or not, by the order in which Go ranges over the cache. */
module StorageOrder {
  import opened Bytes
  import opened HexPrefix
  import opened PatriciaTree
  import opened Rlp
  import opened NodeStore
  import opened NodeOps
  import opened NodeDelete
  import opened TrieObject
  import opened Storage
  import opened StorageTrie

  /** Three slots whose keys agree in `p`; the last two agree in `z` once more and differ in their
      last nibble. */
  ghost predicate Kin(p: Nibbles, z: Nibbles, s: nat, s1: nat, s2: nat) {
    && IsPath(p) && p != [] && IsPath(z) && z != []
    && SlotKey(s) == p + ([0] + z + [0, 16])
    && SlotKey(s1) == p + ([1] + z + [0, 16])
    && SlotKey(s2) == p + ([1] + z + [1, 16])
  }

  // ---- The slots 0, 256 and 257 are such --------------------------------------------------------

  lemma {:induction false} UnpackZeros(n: nat, b: seq<byte>)
    ensures Unpack(Zeros(n) + b) == seq(2 * n, _ => 0) + Unpack(b)
  {
    var s := Zeros(n) + b;
    if n == 0 {
      assert s == b;
    } else {
      assert s[1..] == Zeros(n - 1) + b;
      UnpackZeros(n - 1, b);
    }
  }

  /** The nibbles in which the three keys agree. */
  function Common(): (p: Nibbles)
    ensures |p| == 61 && IsPath(p)
  {
    seq(61, _ => 0)
  }

  lemma {:induction false} PlaceKey(k: nat, b: seq<byte>, x: nat, y: nat)
    requires BigBytes(k) == b && |b| <= 32 && Zeros(32 - |b|) + b == Zeros(30) + [x, y] && x < 16 && y < 16
    ensures SlotKey(k) == Common() + [x, 0, y, 16]
  {
    TwoByteKey(x, y);
    UnpackZeros(30, [x, y]);
    assert Unpack([x, y]) + [16] == [0, x, 0, y, 16];
    assert seq(60, _ => 0) + [0, x, 0, y] + [16] == Common() + [x, 0, y, 16];
  }

  lemma {:induction false} SlotsKin()
    ensures Kin(Common(), [0], 0, 256, 257)
  {
    Bytes256();
    PlaceKey(0, [], 0, 0);
    PlaceKey(256, [1, 0], 1, 0);
    PlaceKey(257, [1, 1], 1, 1);
    KinOf(Common(), 0, 256, 257);
  }

  lemma {:induction false} Bytes256()
    ensures BigBytes(0) == [] && BigBytes(256) == [1, 0] && BigBytes(257) == [1, 1]
    ensures Zeros(32) + [] == Zeros(30) + [0, 0]
  {
    OneByte(1);
  }

  lemma {:induction false} KinOf(p: Nibbles, s: nat, s1: nat, s2: nat)
    requires IsPath(p) && p != []
    requires SlotKey(s) == p + [0, 0, 0, 16] && SlotKey(s1) == p + [1, 0, 0, 16] && SlotKey(s2) == p + [1, 0, 1, 16]
    ensures Kin(p, [0], s, s1, s2)
  {
    assert [0] + [0] + [0, 16] == [0, 0, 0, 16];
    assert [1] + [0] + [0, 16] == [1, 0, 0, 16];
    assert [1] + [0] + [1, 16] == [1, 0, 1, 16];
  }

  // ---- Their trie ---------------------------------------------------------------------------------

  function Triplet(p: Nibbles, z: Nibbles, a: byte, b: byte, c: byte): Tree {
    Short(p, Family(z, a, b, c))
  }

  predicate Tiny(v: nat) {
    0 < v <= 0x7f
  }

  lemma {:induction false} TinyEncoded(v: nat)
    requires Tiny(v)
    ensures Encoded(v) == [v]
  {
    OneByte(v);
  }

  lemma {:induction false} FamilyLookup(z: Nibbles, a: byte, b: byte, c: byte, q: Nibbles)
    requires IsPath(z) && z != [] && IsKey(q)
    ensures Lookup(Family(z, a, b, c), q) ==
            if q == [1] + z + [1, 16] then [c] else if q == [1] + z + [0, 16] then [b]
            else if q == [0] + z + [0, 16] then [a] else []
  {
    FamilyBuilt(z, a, b, c);
    var k0, k1, k2 := [0] + z + [0, 16], [1] + z + [0, 16], [1] + z + [1, 16];
    var t1 := Short(k0, Val([a]));
    LeafLookup(k0, Val([a]), q);
    InsertLookup(t1, k1, Val([b]), q);
    InsertLookup(Insert(t1, k1, Val([b])), k2, Val([c]), q);
  }

  /** Below the part in which the keys agree. */
  lemma {:induction false} UnderPart(p: Nibbles, t: Tree, r: Nibbles, q: Nibbles)
    requires IsPath(p) && p != [] && IsKey(q)
    ensures p <= q ==> IsKey(q[|p|..])
    ensures q == p + r <==> p <= q && q[|p|..] == r
    ensures Lookup(Short(p, t), q) == if p <= q then Lookup(t, q[|p|..]) else []
  {
    if p <= q {
      KeySuffix(p, q);
      assert q == p + q[|p|..];
    }
    assert (p + r)[|p|..] == r;
  }

  lemma {:induction false} TripletLookup(p: Nibbles, z: Nibbles, a: byte, b: byte, c: byte, s: nat, s1: nat, s2: nat, q: Nibbles)
    requires Kin(p, z, s, s1, s2) && IsKey(q)
    ensures Lookup(Triplet(p, z, a, b, c), q) ==
            if q == SlotKey(s2) then [c] else if q == SlotKey(s1) then [b] else if q == SlotKey(s) then [a] else []
  {
    var f := Family(z, a, b, c);
    UnderPart(p, f, [0] + z + [0, 16], q);
    UnderPart(p, f, [1] + z + [0, 16], q);
    UnderPart(p, f, [1] + z + [1, 16], q);
    if p <= q { FamilyLookup(z, a, b, c, q[|p|..]); }
  }

  function Slots(s: nat, s1: nat, s2: nat, a: nat, b: nat, c: nat): map<nat, nat> {
    map[s := a, s1 := b, s2 := c]
  }

  lemma {:induction false} KinDistinct(p: Nibbles, z: Nibbles, s: nat, s1: nat, s2: nat)
    requires Kin(p, z, s, s1, s2)
    ensures s != s1 && s != s2 && s1 != s2
  {
    assert SlotKey(s)[|p|] == 0 && SlotKey(s1)[|p|] == 1 && SlotKey(s2)[|p|] == 1;
    assert SlotKey(s1)[|p| + 1 + |z|] == 0 && SlotKey(s2)[|p| + 1 + |z|] == 1;
  }

  lemma {:induction false} TripletBound(p: Nibbles, z: Nibbles, a: byte, b: byte, c: byte, s: nat, s1: nat, s2: nat, k: nat)
    requires Kin(p, z, s, s1, s2) && Tiny(a) && Tiny(b) && Tiny(c)
    ensures Bound(Triplet(p, z, a, b, c), Slots(s, s1, s2, a, b, c), k)
  {
    TripletLookup(p, z, a, b, c, s, s1, s2, SlotKey(k));
    KinDistinct(p, z, s, s1, s2);
    TinyEncoded(a);
    TinyEncoded(b);
    TinyEncoded(c);
    if SlotKey(k) == SlotKey(s) { SlotKeyInjective(k, s); }
    if SlotKey(k) == SlotKey(s1) { SlotKeyInjective(k, s1); }
    if SlotKey(k) == SlotKey(s2) { SlotKeyInjective(k, s2); }
  }

  lemma {:induction false} TripletCarries(p: Nibbles, z: Nibbles, a: byte, b: byte, c: byte, s: nat, s1: nat, s2: nat)
    requires Kin(p, z, s, s1, s2) && Tiny(a) && Tiny(b) && Tiny(c)
    ensures Carries(Triplet(p, z, a, b, c), Slots(s, s1, s2, a, b, c))
    ensures Canonical(Triplet(p, z, a, b, c)) && Node(Triplet(p, z, a, b, c))
  {
    var t := Triplet(p, z, a, b, c);
    forall k ensures Bound(t, Slots(s, s1, s2, a, b, c), k) { TripletBound(p, z, a, b, c, s, s1, s2, k); }
    forall q | IsKey(q) && Lookup(t, q) != [] ensures IsSlotKey(q) { TripletLookup(p, z, a, b, c, s, s1, s2, q); }
    FamilyCanonical(z, a, b, c);
    CanonicalNode(t);
  }

  // ---- Clearing the first of them -------------------------------------------------------------------

  /** Nothing is left. */
  lemma {:induction false} TripletLost(h: Codec, p: Nibbles, z: Nibbles, a: byte, b: byte, c: byte, q: Nibbles)
    requires IsPath(p) && p != [] && IsPath(z) && z != [] && IsKey(q) && Node(Triplet(p, z, a, b, c))
    requires h.inline(NodeContent(h, Twins(b, c)))
    ensures var key := p + ([0] + z + [0, 16]);
            IsKey(key) && Lookup(Deleted(h, Triplet(p, z, a, b, c), key), q) == []
  {
    var f, r := Family(z, a, b, c), [0] + z + [0, 16];
    FamilyLost(h, z, a, b, c);
    var d := Deleted(h, f, r);
    DeletedRemoves(h, f, r);
    DeletedUnder(h, p, f, r);
    JoinLookup(p, d, q);
    UnderPart(p, d, r, q);
  }

  lemma {:induction false} DeletedUnder(h: Codec, p: Nibbles, t: Tree, r: Nibbles)
    requires IsPath(p) && p != [] && Node(t) && IsKey(r)
    ensures IsKey(p + r) && Insertable(Short(p, t), p + r) && Deleted(h, Short(p, t), p + r) == Join(p, Deleted(h, t, r))
  {
    assert (p + r)[|p|..] == r && (p + r)[..|p|] == p;
  }

  lemma {:induction false} TripletLostAt(h: Codec, p: Nibbles, z: Nibbles, a: byte, b: byte, c: byte, s: nat, s1: nat, s2: nat)
    requires Kin(p, z, s, s1, s2) && Node(Triplet(p, z, a, b, c)) && h.inline(NodeContent(h, Twins(b, c)))
    ensures LostBy(Slots(s, s1, s2, a, b, c), s, Deleted(h, Triplet(p, z, a, b, c), SlotKey(s))) == {s1, s2}
  {
    KinDistinct(p, z, s, s1, s2);
    TripletLost(h, p, z, a, b, c, SlotKey(s1));
    TripletLost(h, p, z, a, b, c, SlotKey(s2));
  }

  /** Putting a value that is there already changes nothing. */
  lemma {:induction false} PutAgain(t: Tree, m: map<nat, nat>, k: nat)
    requires Canonical(t) && Node(t) && Carries(t, m) && k in m && m[k] != 0
    ensures Insert(t, SlotKey(k), Val(Encoded(m[k]))) == t
  {
    InsertCarries(t, m, k, m[k]);
    assert m[k := m[k]] == m;
    InsertCanonical(t, SlotKey(k), Encoded(m[k]));
    SameSlots(Insert(t, SlotKey(k), Val(Encoded(m[k]))), t, m);
  }

  lemma {:induction false} ThreeTurns(m: map<nat, nat>, cache: map<nat, nat>, plan: Plan)
    requires |plan| == 3
    ensures SyncMap(m, cache, plan) == TurnOn(TurnOn(TurnOn(m, cache, plan[0]), cache, plan[1]), cache, plan[2])
  {
    var m1 := TurnOn(m, cache, plan[0]);
    assert plan[1..][0] == plan[1] && plan[1..][1..][0] == plan[2] && plan[1..][1..][1..] == [];
    assert SyncMap(m, cache, plan) == SyncMap(m1, cache, plan[1..]);
    var m2 := TurnOn(m1, cache, plan[1]);
    assert SyncMap(m1, cache, plan[1..]) == SyncMap(m2, cache, plan[1..][1..]);
    assert SyncMap(TurnOn(m2, cache, plan[2]), cache, []) == TurnOn(m2, cache, plan[2]);
  }

  /** Cleared first, the slot takes the others with it and they are put back. */
  lemma {:induction false} ClearedFirst(h: Codec, t: Tree, m: map<nat, nat>, s: nat, s1: nat, s2: nat, b: nat, c: nat)
    requires Node(t) && s != s1 && s != s2 && s1 != s2 && m.Keys == {s, s1, s2} && b != 0 && c != 0
    requires LostBy(m, s, Deleted(h, t, SlotKey(s))) == {s1, s2}
    ensures var cache, order := Slots(s, s1, s2, 0, b, c), [s, s1, s2];
            AllCached(cache, order) && SyncMap(m, cache, PlanOf(h, t, m, cache, order)) == map[s1 := b, s2 := c]
  {
    var cache, order := Slots(s, s1, s2, 0, b, c), [s, s1, s2];
    FirstCleared(h, t, m, cache, order, {s1, s2});
    var plan := PlanOf(h, t, m, cache, order);
    PutBack(m, s, s1, s2, b, c, plan);
  }

  lemma {:induction false} FirstCleared(h: Codec, t: Tree, m: map<nat, nat>, cache: map<nat, nat>, order: seq<nat>, lost: set<nat>)
    requires Node(t) && AllCached(cache, order) && order != [] && cache[order[0]] == 0
    requires LostBy(m, order[0], Deleted(h, t, SlotKey(order[0]))) == lost
    ensures PlanOf(h, t, m, cache, order)[0] == Turn(order[0], lost)
  {
    PlanStep(h, t, m, cache, order);
  }

  /** A slot that has its value already comes first. */
  lemma {:induction false} FirstPutAgain(h: Codec, t: Tree, m: map<nat, nat>, cache: map<nat, nat>, order: seq<nat>)
    requires Canonical(t) && Node(t) && Carries(t, m) && AllCached(cache, order) && order != []
    requires order[0] in m && cache[order[0]] == m[order[0]] != 0
    ensures PlanOf(h, t, m, cache, order) == [Turn(order[0], {})] + PlanOf(h, t, m, cache, order[1..])
  {
    PutAgain(t, m, order[0]);
    assert m[order[0] := m[order[0]]] == m;
    PlanStep(h, t, m, cache, order);
  }

  lemma {:induction false} PutBack(m: map<nat, nat>, s: nat, s1: nat, s2: nat, b: nat, c: nat, plan: Plan)
    requires s != s1 && s != s2 && s1 != s2 && m.Keys == {s, s1, s2} && b != 0 && c != 0
    requires |plan| == 3 && plan[0] == Turn(s, {s1, s2}) && plan[1].slot == s1 && plan[2].slot == s2
    ensures SyncMap(m, Slots(s, s1, s2, 0, b, c), plan) == map[s1 := b, s2 := c]
  {
    ThreeTurns(m, Slots(s, s1, s2, 0, b, c), plan);
    assert m - {s} - {s1, s2} == map[];
  }

  /** Cleared last, it takes them with it for good. */
  lemma {:induction false} ClearedLast(h: Codec, t: Tree, m: map<nat, nat>, s: nat, s1: nat, s2: nat)
    requires Canonical(t) && Node(t) && Carries(t, m) && s != s1 && s != s2 && s1 != s2 && m.Keys == {s, s1, s2}
    requires m[s1] != 0 && m[s2] != 0 && LostBy(m, s, Deleted(h, t, SlotKey(s))) == {s1, s2}
    ensures var cache, order := Slots(s, s1, s2, 0, m[s1], m[s2]), [s1, s2, s];
            AllCached(cache, order) && SyncMap(m, cache, PlanOf(h, t, m, cache, order)) == map[]
  {
    var cache, order := Slots(s, s1, s2, 0, m[s1], m[s2]), [s1, s2, s];
    var rest, end := order[1..], order[1..][1..];
    FirstPutAgain(h, t, m, cache, order);
    FirstPutAgain(h, t, m, cache, rest);
    FirstCleared(h, t, m, cache, end, {s1, s2});
    var plan := PlanOf(h, t, m, cache, order);
    TakenAlong(m, s, s1, s2, plan);
  }

  lemma {:induction false} TakenAlong(m: map<nat, nat>, s: nat, s1: nat, s2: nat, plan: Plan)
    requires s != s1 && s != s2 && s1 != s2 && m.Keys == {s, s1, s2} && m[s1] != 0 && m[s2] != 0
    requires |plan| == 3 && plan[0] == Turn(s1, {}) && plan[1] == Turn(s2, {}) && plan[2] == Turn(s, {s1, s2})
    ensures SyncMap(m, Slots(s, s1, s2, 0, m[s1], m[s2]), plan) == map[]
  {
    assert m[s1 := m[s1]] == m && m[s2 := m[s2]] == m;
    ThreeTurns(m, Slots(s, s1, s2, 0, m[s1], m[s2]), plan);
    assert m - {s} - {s1, s2} == map[];
  }

  /** The same slots are cached in two orders: after the one the trie has what is read, after
      the other it has nothing. */
  ghost predicate OrderDecides(h: Codec, t: Tree, m: map<nat, nat>, cache: map<nat, nat>, order: seq<nat>, order': seq<nat>)
    requires Node(t)
  {
    && Orders(cache, order) && Orders(cache, order')
    && SyncMap(m, cache, PlanOf(h, t, m, cache, order)) == Overlay(m, cache) != map[]
    && SyncMap(m, cache, PlanOf(h, t, m, cache, order')) == map[]
  }

  lemma {:induction false} BothOrders(h: Codec, t: Tree, m: map<nat, nat>, s: nat, s1: nat, s2: nat)
    requires Canonical(t) && Node(t) && Carries(t, m) && s != s1 && s != s2 && s1 != s2 && m.Keys == {s, s1, s2}
    requires m[s1] != 0 && m[s2] != 0 && LostBy(m, s, Deleted(h, t, SlotKey(s))) == {s1, s2}
    ensures OrderDecides(h, t, m, Slots(s, s1, s2, 0, m[s1], m[s2]), [s, s1, s2], [s1, s2, s])
  {
    var cache := Slots(s, s1, s2, 0, m[s1], m[s2]);
    ClearedFirst(h, t, m, s, s1, s2, m[s1], m[s2]);
    ClearedLast(h, t, m, s, s1, s2);
    WithoutFirst(m, s, s1, s2);
  }

  lemma {:induction false} WithoutFirst(m: map<nat, nat>, s: nat, s1: nat, s2: nat)
    requires s != s1 && s != s2 && s1 != s2 && m.Keys == {s, s1, s2} && m[s1] != 0 && m[s2] != 0
    ensures Overlay(m, Slots(s, s1, s2, 0, m[s1], m[s2])) == map[s1 := m[s1], s2 := m[s2]] != map[]
  {
    assert s1 in map[s1 := m[s1], s2 := m[s2]];
  }

  /** With the codec of the source: three slots with small values, of which the first is cleared
      while the others are cached as they are. Whether the others stay in the trie depends on
      the order. By `SlotsKin`, the slots 0, 256 and 257 are such slots. */
  lemma {:induction false} OrderMatters(sha3: seq<byte> -> seq<byte>, p: Nibbles, z: Nibbles, s: nat, s1: nat, s2: nat,
                                        a: byte, b: byte, c: byte)
    requires forall e :: |sha3(e)| >= 32
    requires forall e, f :: sha3(e) == sha3(f) ==> e == f
    requires Kin(p, z, s, s1, s2) && Tiny(a) && Tiny(b) && Tiny(c)
    ensures var h, t, m := Thelonious(sha3, Built, Read), Triplet(p, z, a, b, c), Slots(s, s1, s2, a, b, c);
            && Sound(h) && Canonical(t) && Node(t) && Carries(t, m)
            && OrderDecides(h, t, m, Slots(s, s1, s2, 0, b, c), [s, s1, s2], [s1, s2, s])
  {
    var h, t, m := Thelonious(sha3, Built, Read), Triplet(p, z, a, b, c), Slots(s, s1, s2, a, b, c);
    TheloniousSound(sha3, Built, Read);
    TwinsInline(h, sha3, b, c);
    TripletCarries(p, z, a, b, c, s, s1, s2);
    KinDistinct(p, z, s, s1, s2);
    TripletLostAt(h, p, z, a, b, c, s, s1, s2);
    BothOrders(h, t, m, s, s1, s2);
  }
}
