/** The storage trie of an account under `StateObject.Sync` of `monkstate/state_object.go`. Its
    deletes are those of `monktrie/trie.go`, so that a slot that is cleared may take others
    with it, depending on the order and on what of the trie was loaded. */
module StorageTrie {
  import opened Bytes
  import opened HexPrefix
  import opened PatriciaTree
  import opened Rlp
  import opened NodeStore
  import opened NodeOps
  import opened NodeDelete
  import opened NodeIterator
  import opened TrieHistory
  import opened TrieObject
  import opened Storage

  // ---- Slots and values --------------------------------------------------------------------

  /** The string under which a slot is stored. */
  function Place(k: nat): seq<byte> {
    LeftPad(BigBytes(k), 32)
  }

  function SlotKey(k: nat): (key: Nibbles)
    ensures IsKey(key) && (k < Pow256(32) ==> |key| == 65)
  {
    if k < Pow256(32) then BigBytesLength(k, 32); KeyOf(Place(k)) else KeyOf(Place(k))
  }

  lemma {:induction false} SlotKeyInjective(j: nat, k: nat)
    requires SlotKey(j) == SlotKey(k)
    ensures j == k
  {
    KeyOfInjective(Place(j), Place(k));
    BigBytesValue(j);
    BigBytesValue(k);
  }

  /** `SetAddr` stores the encoding of the number. */
  function Encoded(v: nat): (s: seq<byte>)
    ensures s != []
  {
    EncodeContent(Wire(Int(v)))
  }

  lemma {:induction false} EncodedInjective(u: nat, v: nat)
    requires Encoded(u) == Encoded(v)
    ensures u == v
  {
    EncodingPrefixFree(Wire(Int(u)), Wire(Int(v)));
    BigBytesValue(u);
    BigBytesValue(v);
  }

  /** The tree has the slots of the map and nothing else. */
  ghost predicate Carries(t: Tree, m: map<nat, nat>) {
    (forall k {:trigger Bound(t, m, k)} :: Bound(t, m, k)) && Slotted(t)
  }

  predicate Bound(t: Tree, m: map<nat, nat>, k: nat) {
    Lookup(t, SlotKey(k)) == if k in m then Encoded(m[k]) else []
  }

  ghost predicate Slotted(t: Tree) {
    forall q | IsKey(q) && Lookup(t, q) != [] :: IsSlotKey(q)
  }

  ghost predicate IsSlotKey(q: Nibbles) {
    exists k :: q == SlotKey(k)
  }

  /** What a tree has is one map. */
  lemma {:induction false} CarriesOne(t: Tree, m: map<nat, nat>, m': map<nat, nat>)
    requires Carries(t, m) && Carries(t, m')
    ensures m == m'
  {
    forall k ensures (k in m <==> k in m') && (k in m ==> m[k] == m'[k]) {
      assert Bound(t, m, k) && Bound(t, m', k);
      BoundOnce(t, m, m', k);
    }
  }

  lemma {:induction false} BoundOnce(t: Tree, m: map<nat, nat>, m': map<nat, nat>, k: nat)
    requires Bound(t, m, k) && Bound(t, m', k)
    ensures (k in m <==> k in m') && (k in m ==> m[k] == m'[k])
  {
    if k in m && k in m' { EncodedInjective(m[k], m'[k]); }
  }

  lemma {:induction false} CarriesSame(t: Tree, u: Tree, m: map<nat, nat>)
    requires Carries(t, m) && SameBindings(u, t)
    ensures Carries(u, m)
  {
    forall k ensures Bound(u, m, k) {
      assert Bound(t, m, k);
      assert Lookup(u, SlotKey(k)) == Lookup(t, SlotKey(k));
    }
    forall q | IsKey(q) && Lookup(u, q) != [] ensures IsSlotKey(q) { assert Lookup(t, q) != []; }
  }

  // ---- One turn ----------------------------------------------------------------------------

  /** The trie between two turns: its tree, and what its nodes come from. */
  datatype Stage = Stage(tree: Tree, mode: Mode)

  /** The nodes are as they were loaded, and few enough slots were cleared for none to fold. */
  predicate Firm(s: Stage, k: nat) {
    s.mode.Opened? && s.mode.cleared + 1 < 16 && Plain(s.tree, |SlotKey(k)|)
  }

  /** What the nodes come from after a turn. */
  predicate StillLoaded(s: Stage, k: nat, v: nat)
    requires Node(s.tree)
  {
    if v == 0 then Plain(s.tree, |SlotKey(k)|) else !Splits(s.tree, SlotKey(k))
  }

  function NextMode(s: Stage, k: nat, v: nat): Mode
    requires Node(s.tree)
  {
    if !s.mode.Opened? then s.mode
    else if !StillLoaded(s, k, v) then Read
    else if v == 0 then Opened(s.mode.cleared + 1)
    else s.mode
  }

  /** A cached slot at its turn: zero is deleted and anything else is put. What a delete leaves
      is known if nothing was loaded, or if all is as it was loaded; otherwise any branch on
      the path may fold. */
  ghost predicate TurnTo(h: Codec, s: Stage, k: nat, v: nat, u: Tree)
    requires Node(s.tree)
  {
    if v != 0 then u == Insert(s.tree, SlotKey(k), Val(Encoded(v)))
    else if s.mode == Built then u == Deleted(h, s.tree, SlotKey(k))
    else if Firm(s, k) then u == Kept(s.tree, SlotKey(k))
    else LeftAs(h, s.tree, SlotKey(k), u)
  }

  ghost predicate Step(h: Codec, s: Stage, k: nat, v: nat, s': Stage) {
    Node(s.tree) && TurnTo(h, s, k, v, s'.tree) && s'.mode == NextMode(s, k, v)
  }

  lemma {:induction false} RootedWithin(t: Tree, key: Nibbles)
    ensures Node(Rooted(Void)) && Within(t, key, Rooted(Void))
  {
    forall q | IsKey(q) ensures Lookup(Rooted(Void), q) == [] { RootedLookup(Void, q); }
  }

  /** Whatever was loaded, a delete binds nothing new. */
  lemma {:induction false} StepWithin(h: Codec, s: Stage, k: nat, s': Stage)
    requires h.mode != Faded && Step(h, s, k, 0, s')
    ensures Node(s'.tree) && Within(s.tree, SlotKey(k), s'.tree)
  {
    var t, key, u := s.tree, SlotKey(k), s'.tree;
    if s.mode == Built {
      DeletedRemoves(h, t, key);
    } else if Firm(s, k) {
      KeptExact(h, t, key);
      RemovedWithin(h, t, key, u);
    } else if u in LeftOver(h, t, key) {
      LeftOverExact(h, t, key, u);
    } else {
      RootedWithin(t, key);
    }
  }

  /** The slots that go with one that is deleted. */
  ghost function LostBy(m: map<nat, nat>, k: nat, u: Tree): set<nat> {
    set s | s in m && s != k && Lookup(u, SlotKey(s)) == []
  }

  ghost function TurnBy(m: map<nat, nat>, k: nat, v: nat, u: Tree): Turn {
    Turn(k, if v == 0 then LostBy(m, k, u) else {})
  }

  lemma {:induction false} DeleteCarries(t: Tree, m: map<nat, nat>, k: nat, u: Tree)
    requires Carries(t, m) && Within(t, SlotKey(k), u)
    ensures Carries(u, m - {k} - LostBy(m, k, u))
  {
    forall s ensures Bound(u, m - {k} - LostBy(m, k, u), s) {
      assert Bound(t, m, s);
      SlotAfterDelete(t, m, k, u, s);
    }
    WithinSlotted(t, SlotKey(k), u);
  }

  lemma {:induction false} SlotAfterDelete(t: Tree, m: map<nat, nat>, k: nat, u: Tree, s: nat)
    requires Within(t, SlotKey(k), u) && Bound(t, m, s)
    ensures Bound(u, m - {k} - LostBy(m, k, u), s)
  {
  }

  lemma {:induction false} WithinSlotted(t: Tree, key: Nibbles, u: Tree)
    requires Within(t, key, u) && Slotted(t)
    ensures Slotted(u)
  {
    forall q | IsKey(q) && Lookup(u, q) != [] ensures IsSlotKey(q) { assert Lookup(t, q) != []; }
  }

  lemma {:induction false} InsertCarries(t: Tree, m: map<nat, nat>, k: nat, v: nat)
    requires Node(t) && Carries(t, m)
    ensures Carries(Insert(t, SlotKey(k), Val(Encoded(v))), m[k := v])
  {
    var u, m' := Insert(t, SlotKey(k), Val(Encoded(v))), m[k := v];
    forall s ensures Bound(u, m', s) {
      assert Bound(t, m, s);
      SlotAfterInsert(t, m, k, v, s);
    }
    InsertSlotted(t, k, v);
  }

  lemma {:induction false} SlotAfterInsert(t: Tree, m: map<nat, nat>, k: nat, v: nat, s: nat)
    requires Node(t) && Bound(t, m, s)
    ensures Bound(Insert(t, SlotKey(k), Val(Encoded(v))), m[k := v], s)
  {
    InsertLookup(t, SlotKey(k), Val(Encoded(v)), SlotKey(s));
    if SlotKey(s) == SlotKey(k) { SlotKeyInjective(s, k); }
  }

  lemma {:induction false} InsertSlotted(t: Tree, k: nat, v: nat)
    requires Node(t) && Slotted(t)
    ensures Slotted(Insert(t, SlotKey(k), Val(Encoded(v))))
  {
    var u := Insert(t, SlotKey(k), Val(Encoded(v)));
    forall q | IsKey(q) && Lookup(u, q) != [] ensures IsSlotKey(q) {
      InsertLookup(t, SlotKey(k), Val(Encoded(v)), q);
    }
  }

  lemma {:induction false} StepCarries(h: Codec, s: Stage, m: map<nat, nat>, cache: map<nat, nat>, k: nat, s': Stage)
    requires h.mode != Faded && Carries(s.tree, m) && k in cache && Step(h, s, k, cache[k], s')
    ensures Node(s'.tree) && Carries(s'.tree, TurnOn(m, cache, TurnBy(m, k, cache[k], s'.tree)))
  {
    if cache[k] == 0 {
      StepWithin(h, s, k, s');
      DeleteCarries(s.tree, m, k, s'.tree);
    } else {
      InsertNode(s.tree, SlotKey(k), Val(Encoded(cache[k])));
      InsertCarries(s.tree, m, k, cache[k]);
    }
  }

  // ---- All turns ----------------------------------------------------------------------------

  predicate AllCached(cache: map<nat, nat>, order: seq<nat>) {
    forall i | 0 <= i < |order| :: order[i] in cache
  }

  ghost predicate StepAt(h: Codec, cache: map<nat, nat>, order: seq<nat>, trail: seq<Stage>, i: nat)
    requires AllCached(cache, order) && i < |order| && i + 1 < |trail|
  {
    Step(h, trail[i], order[i], cache[order[i]], trail[i + 1])
  }

  /** What becomes of the trie with the slots of the cache in some order. */
  ghost predicate Trail(h: Codec, cache: map<nat, nat>, order: seq<nat>, trail: seq<Stage>) {
    && AllCached(cache, order) && |trail| == |order| + 1
    && forall i | 0 <= i < |order| :: StepAt(h, cache, order, trail, i)
  }

  function Last(trail: seq<Stage>): Stage
    requires trail != []
  {
    trail[|trail| - 1]
  }

  lemma {:induction false} TrailStep(h: Codec, cache: map<nat, nat>, order: seq<nat>, trail: seq<Stage>)
    requires Trail(h, cache, order, trail) && order != []
    ensures Step(h, trail[0], order[0], cache[order[0]], trail[1])
    ensures Trail(h, cache, order[1..], trail[1..]) && Last(trail[1..]) == Last(trail)
  {
    assert StepAt(h, cache, order, trail, 0);
    forall i | 0 <= i < |order[1..]| ensures StepAt(h, cache, order[1..], trail[1..], i) {
      assert StepAt(h, cache, order, trail, i + 1);
    }
  }

  /** What is lost on the way. */
  ghost function PlanBy(m: map<nat, nat>, cache: map<nat, nat>, order: seq<nat>, trail: seq<Stage>): (plan: Plan)
    requires AllCached(cache, order) && |trail| == |order| + 1
    ensures |plan| == |order| && forall i | 0 <= i < |order| :: plan[i].slot == order[i]
    decreases |order|
  {
    if order == [] then []
    else
      var turn := TurnBy(m, order[0], cache[order[0]], trail[1].tree);
      [turn] + PlanBy(TurnOn(m, cache, turn), cache, order[1..], trail[1..])
  }

  /** The trie has at the end what the plan says, and the plan is one that `Storage` speaks of. */
  lemma {:induction false} SyncCarries(h: Codec, m: map<nat, nat>, cache: map<nat, nat>, order: seq<nat>, trail: seq<Stage>)
    requires h.mode != Faded && Trail(h, cache, order, trail) && Node(trail[0].tree) && Carries(trail[0].tree, m)
    ensures Node(Last(trail).tree) && Carries(Last(trail).tree, SyncMap(m, cache, PlanBy(m, cache, order, trail)))
    ensures Real(m, cache, PlanBy(m, cache, order, trail))
    decreases |order|
  {
    if order != [] {
      TrailStep(h, cache, order, trail);
      var k := order[0];
      var turn := TurnBy(m, k, cache[k], trail[1].tree);
      StepCarries(h, trail[0], m, cache, k, trail[1]);
      SyncCarries(h, TurnOn(m, cache, turn), cache, order[1..], trail[1..]);
      var plan := PlanBy(m, cache, order, trail);
      assert plan[0] == turn && plan[1..] == PlanBy(TurnOn(m, cache, turn), cache, order[1..], trail[1..]);
      assert turn.lost <= m.Keys - {k};
    }
  }

  /** The order takes every cached slot. */
  ghost predicate Orders(cache: map<nat, nat>, order: seq<nat>) {
    AllCached(cache, order) && forall k | k in cache :: k in order
  }

  lemma {:induction false} PlanTakesAll(m: map<nat, nat>, cache: map<nat, nat>, order: seq<nat>, trail: seq<Stage>)
    requires Orders(cache, order) && |trail| == |order| + 1
    ensures TakesAll(cache, PlanBy(m, cache, order, trail))
  {
    var plan := PlanBy(m, cache, order, trail);
    forall k ensures HasTurn(plan, k) <==> k in cache {
      if k in cache {
        var i :| 0 <= i < |order| && order[i] == k;
        assert plan[i].slot == k;
      }
    }
  }

  /** Written in some order, the storage trie has what is read exactly if every slot that goes
      with a deleted one still has its own turn to come. */
  lemma {:induction false} SyncTreeExact(h: Codec, m: map<nat, nat>, cache: map<nat, nat>, order: seq<nat>, trail: seq<Stage>)
    requires h.mode != Faded && Trail(h, cache, order, trail) && Node(trail[0].tree) && Carries(trail[0].tree, m)
    requires Orders(cache, order)
    ensures Carries(Last(trail).tree, Overlay(m, cache)) <==> AllReturn(PlanBy(m, cache, order, trail))
  {
    var plan := PlanBy(m, cache, order, trail);
    SyncCarries(h, m, cache, order, trail);
    PlanTakesAll(m, cache, order, trail);
    SyncExact(m, cache, plan);
    if Carries(Last(trail).tree, Overlay(m, cache)) {
      CarriesOne(Last(trail).tree, SyncMap(m, cache, plan), Overlay(m, cache));
    }
  }

  // ---- What can be told beforehand -----------------------------------------------------------

  /** No slot that is cleared can take others with it, as far as that can be told from the trie
      at the start: if nothing was loaded it is not `Lossy` at its turn; if all is as it was
      loaded, and less than 16 slots were cleared, it never can; otherwise it is not one of those
      that `CanDrop`, whichever branches folded before. */
  ghost predicate Quiet(h: Codec, s: Stage, cache: map<nat, nat>, order: seq<nat>)
    requires AllCached(cache, order)
    decreases |order|
  {
    order == [] ||
    (var k, v := order[0], cache[order[0]];
     && Node(s.tree)
     && if v != 0 then Quiet(h, Stage(Insert(s.tree, SlotKey(k), Val(Encoded(v))), NextMode(s, k, v)), cache, order[1..])
        else if s.mode == Built then
          !Lossy(h, s.tree, SlotKey(k)) && Quiet(h, Stage(Deleted(h, s.tree, SlotKey(k)), s.mode), cache, order[1..])
        else if Firm(s, k) then Quiet(h, Stage(Kept(s.tree, SlotKey(k)), NextMode(s, k, v)), cache, order[1..])
        else
          && !CanDrop(h, s.tree, SlotKey(k))
          && forall u | u in LeftOver(h, s.tree, SlotKey(k)) :: Quiet(h, Stage(u, NextMode(s, k, v)), cache, order[1..]))
  }

  ghost predicate Small(m: map<nat, nat>) {
    forall k | k in m :: k < Pow256(32)
  }

  /** What a trie is like between turns that lose nothing. */
  ghost predicate Well(s: Stage) {
    Node(s.tree) && Plain(s.tree, 65) && (s.mode == Built ==> Canonical(s.tree)) && s.mode != Faded
  }

  /** A quiet turn takes exactly the slot that is cleared. */
  lemma {:induction false} QuietDelete(h: Codec, s: Stage, k: nat, cache: map<nat, nat>, order: seq<nat>, s': Stage)
    requires h.mode != Faded && Well(s) && AllCached(cache, order) && order != [] && order[0] == k && cache[k] == 0
    requires k < Pow256(32) && Quiet(h, s, cache, order) && Step(h, s, k, 0, s')
    ensures Well(s') && Removed(h, s.tree, SlotKey(k), s'.tree) && Quiet(h, s', cache, order[1..])
  {
    var t, key, u := s.tree, SlotKey(k), s'.tree;
    assert s' == Stage(u, NextMode(s, k, 0));
    if s.mode == Built {
      DeletedCanonical(h, t, key);
      DeletedRemoves(h, t, key);
      PlainDeleted(h, t, key);
    } else if Firm(s, k) {
      KeptExact(h, t, key);
    } else {
      if u !in LeftOver(h, t, key) { LeftOverExact(h, t, key, Void); }
      LeftOverExact(h, t, key, u);
    }
  }

  lemma {:induction false} QuietPut(h: Codec, s: Stage, k: nat, cache: map<nat, nat>, order: seq<nat>, s': Stage)
    requires h.mode != Faded && Well(s) && AllCached(cache, order) && order != [] && order[0] == k && cache[k] != 0
    requires k < Pow256(32) && Quiet(h, s, cache, order) && Step(h, s, k, cache[k], s')
    ensures Well(s') && Quiet(h, s', cache, order[1..])
  {
    var t, key, v := s.tree, SlotKey(k), Encoded(cache[k]);
    assert s' == Stage(Insert(t, key, Val(v)), NextMode(s, k, cache[k]));
    InsertNode(t, key, Val(v));
    PlainInsert(t, key, v);
    if s.mode == Built { InsertCanonical(t, key, v); }
  }

  lemma {:induction false} ExactLosesNone(h: Codec, t: Tree, m: map<nat, nat>, k: nat, u: Tree)
    requires h.mode != Faded && Carries(t, m) && Removed(h, t, SlotKey(k), u)
    ensures LostBy(m, k, u) == {}
  {
    forall s | s in m && s != k ensures Lookup(u, SlotKey(s)) != [] {
      assert Bound(t, m, s);
      if SlotKey(s) == SlotKey(k) { SlotKeyInjective(s, k); }
    }
  }

  /** A quiet run loses nothing, whatever of the trie was loaded. */
  lemma {:induction false} QuietCalm(h: Codec, m: map<nat, nat>, cache: map<nat, nat>, order: seq<nat>, trail: seq<Stage>)
    requires h.mode != Faded && Trail(h, cache, order, trail) && Well(trail[0]) && Carries(trail[0].tree, m) && Small(cache)
    requires Quiet(h, trail[0], cache, order)
    ensures Calm(PlanBy(m, cache, order, trail)) && Well(Last(trail))
    decreases |order|
  {
    if order != [] {
      TrailStep(h, cache, order, trail);
      var k := order[0];
      var turn := TurnBy(m, k, cache[k], trail[1].tree);
      if cache[k] == 0 {
        QuietDelete(h, trail[0], k, cache, order, trail[1]);
        ExactLosesNone(h, trail[0].tree, m, k, trail[1].tree);
      } else {
        QuietPut(h, trail[0], k, cache, order, trail[1]);
      }
      StepCarries(h, trail[0], m, cache, k, trail[1]);
      QuietCalm(h, TurnOn(m, cache, turn), cache, order[1..], trail[1..]);
      CalmParts(turn, PlanBy(TurnOn(m, cache, turn), cache, order[1..], trail[1..]));
    }
  }

  lemma {:induction false} CalmParts(turn: Turn, rest: Plan)
    ensures Calm([turn] + rest) <==> turn.lost == {} && Calm(rest)
  {
    var plan := [turn] + rest;
    if Calm(plan) {
      assert plan[0] == turn;
      forall i | 0 <= i < |rest| ensures rest[i].lost == {} { assert plan[i + 1] == rest[i]; }
    }
  }

  /** Clearing a slot of a trie never loaded takes others with it exactly if it is `Lossy`. */
  lemma {:induction false} LostIffLossy(h: Codec, t: Tree, m: map<nat, nat>, k: nat)
    requires h.mode != Faded && Canonical(t) && Node(t) && Carries(t, m)
    ensures LostBy(m, k, Deleted(h, t, SlotKey(k))) == {} <==> !Lossy(h, t, SlotKey(k))
  {
    var u := Deleted(h, t, SlotKey(k));
    DeletedCanonical(h, t, SlotKey(k));
    DeletedRemoves(h, t, SlotKey(k));
    if Lossy(h, t, SlotKey(k)) {
      var q :| IsKey(q) && q != SlotKey(k) && Lookup(t, q) != [] && Lookup(u, q) == [];
      assert IsSlotKey(q);
      var s :| q == SlotKey(s);
      assert Bound(t, m, s);
      assert s in LostBy(m, k, u);
    } else {
      ExactLosesNone(h, t, m, k, u);
    }
  }

  /** On a trie never loaded, nothing is lost exactly if the run is quiet. */
  lemma {:induction false} CalmIff(h: Codec, m: map<nat, nat>, cache: map<nat, nat>, order: seq<nat>, trail: seq<Stage>)
    requires h.mode != Faded && Trail(h, cache, order, trail) && Well(trail[0]) && Carries(trail[0].tree, m) && Small(cache)
    requires trail[0].mode == Built
    ensures Calm(PlanBy(m, cache, order, trail)) <==> Quiet(h, trail[0], cache, order)
    decreases |order|
  {
    if Quiet(h, trail[0], cache, order) {
      QuietCalm(h, m, cache, order, trail);
    } else {
      TrailStep(h, cache, order, trail);
      var k := order[0];
      var turn := TurnBy(m, k, cache[k], trail[1].tree);
      CalmParts(turn, PlanBy(TurnOn(m, cache, turn), cache, order[1..], trail[1..]));
      LostIffLossy(h, trail[0].tree, m, k);
      if turn.lost == {} {
        StepCarries(h, trail[0], m, cache, k, trail[1]);
        BuiltStep(h, trail[0], k, cache[k], trail[1]);
        CalmIff(h, TurnOn(m, cache, turn), cache, order[1..], trail[1..]);
      }
    }
  }

  lemma {:induction false} BuiltStep(h: Codec, s: Stage, k: nat, v: nat, s': Stage)
    requires h.mode != Faded && Well(s) && s.mode == Built && Step(h, s, k, v, s') && k < Pow256(32)
    requires v == 0 ==> !Lossy(h, s.tree, SlotKey(k))
    ensures Well(s') && s'.mode == Built
  {
    if v == 0 {
      DeletedCanonical(h, s.tree, SlotKey(k));
      DeletedRemoves(h, s.tree, SlotKey(k));
      PlainDeleted(h, s.tree, SlotKey(k));
    } else {
      InsertNode(s.tree, SlotKey(k), Val(Encoded(v)));
      PlainInsert(s.tree, SlotKey(k), Encoded(v));
      InsertCanonical(s.tree, SlotKey(k), Encoded(v));
    }
  }

  // ---- A trie never loaded has one run for every order -------------------------------------------

  function TurnTree(h: Codec, t: Tree, k: nat, v: nat): Tree
    requires Node(t)
  {
    if v == 0 then Deleted(h, t, SlotKey(k)) else Insert(t, SlotKey(k), Val(Encoded(v)))
  }

  lemma {:induction false} TurnNode(h: Codec, t: Tree, k: nat, v: nat)
    requires Node(t)
    ensures Node(TurnTree(h, t, k, v))
  {
    if v == 0 { DeletedRemoves(h, t, SlotKey(k)); } else { InsertNode(t, SlotKey(k), Val(Encoded(v))); }
  }

  function BuiltTrail(h: Codec, t: Tree, cache: map<nat, nat>, order: seq<nat>): (trail: seq<Stage>)
    requires Node(t) && AllCached(cache, order)
    ensures |trail| == |order| + 1 && trail[0] == Stage(t, Built)
    decreases |order|
  {
    if order == [] then [Stage(t, Built)]
    else
      TurnNode(h, t, order[0], cache[order[0]]);
      [Stage(t, Built)] + BuiltTrail(h, TurnTree(h, t, order[0], cache[order[0]]), cache, order[1..])
  }

  lemma {:induction false} BuiltTrailIs(h: Codec, t: Tree, cache: map<nat, nat>, order: seq<nat>)
    requires Node(t) && AllCached(cache, order)
    ensures Trail(h, cache, order, BuiltTrail(h, t, cache, order))
    decreases |order|
  {
    if order != [] {
      var k := order[0];
      var u := TurnTree(h, t, k, cache[k]);
      TurnNode(h, t, k, cache[k]);
      BuiltTrailIs(h, u, cache, order[1..]);
      var trail, rest := BuiltTrail(h, t, cache, order), BuiltTrail(h, u, cache, order[1..]);
      forall i | 0 <= i < |order| ensures StepAt(h, cache, order, trail, i) {
        if i > 0 { assert StepAt(h, cache, order[1..], rest, i - 1); }
      }
    }
  }

  /** The plan of an order. */
  ghost function PlanOf(h: Codec, t: Tree, m: map<nat, nat>, cache: map<nat, nat>, order: seq<nat>): Plan
    requires Node(t) && AllCached(cache, order)
  {
    PlanBy(m, cache, order, BuiltTrail(h, t, cache, order))
  }

  lemma {:induction false} PlanStep(h: Codec, t: Tree, m: map<nat, nat>, cache: map<nat, nat>, order: seq<nat>)
    requires Node(t) && AllCached(cache, order) && order != []
    ensures var k := order[0];
            var u := TurnTree(h, t, k, cache[k]);
            var turn := TurnBy(m, k, cache[k], u);
            && Node(u)
            && PlanOf(h, t, m, cache, order) == [turn] + PlanOf(h, u, TurnOn(m, cache, turn), cache, order[1..])
  {
    var k := order[0];
    TurnNode(h, t, k, cache[k]);
    assert BuiltTrail(h, t, cache, order)[1..] == BuiltTrail(h, TurnTree(h, t, k, cache[k]), cache, order[1..]);
  }

  lemma {:induction false} QuietCarries(h: Codec, m: map<nat, nat>, cache: map<nat, nat>, order: seq<nat>, trail: seq<Stage>)
    requires h.mode != Faded && Trail(h, cache, order, trail) && Well(trail[0]) && Carries(trail[0].tree, m) && Small(cache)
    requires Orders(cache, order) && Quiet(h, trail[0], cache, order)
    ensures Carries(Last(trail).tree, Overlay(m, cache)) && Well(Last(trail))
  {
    QuietCalm(h, m, cache, order, trail);
    SyncCarries(h, m, cache, order, trail);
    PlanTakesAll(m, cache, order, trail);
    CalmSync(m, cache, PlanBy(m, cache, order, trail));
  }

  /** Two quiet runs, in different orders and on tries of which different nodes were loaded, leave
      what is read; rebuilt, the tries are the same. */
  lemma {:induction false} OrderFree(h: Codec, m: map<nat, nat>, cache: map<nat, nat>, order: seq<nat>, trail: seq<Stage>,
                                     order': seq<nat>, trail': seq<Stage>, u: Tree, u': Tree)
    requires h.mode != Faded && Small(cache) && Orders(cache, order) && Orders(cache, order')
    requires Trail(h, cache, order, trail) && Well(trail[0]) && Carries(trail[0].tree, m) && Quiet(h, trail[0], cache, order)
    requires Trail(h, cache, order', trail') && Well(trail'[0]) && Carries(trail'[0].tree, m) && Quiet(h, trail'[0], cache, order')
    requires Canonical(u) && SameBindings(u, Last(trail).tree) && Canonical(u') && SameBindings(u', Last(trail').tree)
    ensures Carries(u, Overlay(m, cache)) && u == u'
  {
    QuietCarries(h, m, cache, order, trail);
    QuietCarries(h, m, cache, order', trail');
    CarriesSame(Last(trail).tree, u, Overlay(m, cache));
    CarriesSame(Last(trail').tree, u', Overlay(m, cache));
    SameSlots(u, u', Overlay(m, cache));
  }

  lemma {:induction false} SameSlots(t: Tree, u: Tree, m: map<nat, nat>)
    requires Canonical(t) && Canonical(u) && Carries(t, m) && Carries(u, m)
    ensures t == u
  {
    forall q | IsKey(q) ensures Lookup(t, q) == Lookup(u, q) {
      if Lookup(t, q) != [] || Lookup(u, q) != [] {
        assert IsSlotKey(q);
        var k :| q == SlotKey(k);
        assert Bound(t, m, k) && Bound(u, m, k);
      }
    }
    CanonicalUnique(t, u);
  }

  // ---- Slots that are there already ------------------------------------------------------------

  /** How many of the slots are cleared. */
  function Clears(cache: map<nat, nat>, order: seq<nat>): nat
    requires AllCached(cache, order)
  {
    if order == [] then 0 else (if cache[order[0]] == 0 then 1 else 0) + Clears(cache, order[1..])
  }

  predicate Distinct(order: seq<nat>) {
    forall i, j | 0 <= i < j < |order| :: order[i] != order[j]
  }

  /** A key that is bound makes no new branch. */
  lemma {:induction false} BoundNoSplit(t: Tree, key: Nibbles)
    requires Insertable(t, key) && Lookup(t, key) != []
    ensures !Splits(t, key)
    decreases |key|
  {
    if key != [] {
      match t
      case Short(k, c) =>
        if k != key {
          ShortBinds(k, c, key);
          InsertShort(k, c, key, Empty);
          MatchUnique(key, k, |k|);
          BoundNoSplit(c, key[|k|..]);
        }
      case Full(cs) =>
        KeyTail(key, 0);
        BoundNoSplit(cs[key[0]], key[1..]);
    }
  }

  /** If nothing is cleared, nothing is lost. */
  lemma {:induction false} PutsQuiet(h: Codec, s: Stage, cache: map<nat, nat>, order: seq<nat>)
    requires Node(s.tree) && AllCached(cache, order) && forall i | 0 <= i < |order| :: cache[order[i]] != 0
    ensures Quiet(h, s, cache, order)
    decreases |order|
  {
    if order != [] {
      var k, v := order[0], cache[order[0]];
      InsertNode(s.tree, SlotKey(k), Val(Encoded(v)));
      PutsQuiet(h, Stage(Insert(s.tree, SlotKey(k), Val(Encoded(v))), NextMode(s, k, v)), cache, order[1..]);
    }
  }

  /** Every slot that is put is there already. */
  predicate Overwrites(m: map<nat, nat>, cache: map<nat, nat>, order: seq<nat>)
    requires AllCached(cache, order)
  {
    forall i | 0 <= i < |order| :: cache[order[i]] != 0 ==> order[i] in m
  }

  /** On a trie as it was loaded, overwriting slots that are there and clearing less than 16
      loses nothing, in any order. */
  lemma {:induction false} OverwritesQuiet(h: Codec, s: Stage, m: map<nat, nat>, cache: map<nat, nat>, order: seq<nat>)
    requires h.mode != Faded && Well(s) && s.mode.Opened? && Carries(s.tree, m) && Small(cache)
    requires AllCached(cache, order) && Distinct(order) && Overwrites(m, cache, order)
    requires s.mode.cleared + Clears(cache, order) < 16
    ensures Quiet(h, s, cache, order)
    decreases |order|
  {
    if order != [] {
      var k, v := order[0], cache[order[0]];
      assert Bound(s.tree, m, k);
      if v == 0 {
        KeptExact(h, s.tree, SlotKey(k));
        var u := Kept(s.tree, SlotKey(k));
        ExactLosesNone(h, s.tree, m, k, u);
        RemovedWithin(h, s.tree, SlotKey(k), u);
        DeleteCarries(s.tree, m, k, u);
        assert m - {k} - {} == m - {k};
        OverwritesQuiet(h, Stage(u, NextMode(s, k, v)), m - {k}, cache, order[1..]);
      } else {
        BoundNoSplit(s.tree, SlotKey(k));
        InsertNode(s.tree, SlotKey(k), Val(Encoded(v)));
        PlainInsert(s.tree, SlotKey(k), Encoded(v));
        InsertCarries(s.tree, m, k, v);
        OverwritesQuiet(h, Stage(Insert(s.tree, SlotKey(k), Val(Encoded(v))), s.mode), m[k := v], cache, order[1..]);
      }
    }
  }

  // ---- The object -----------------------------------------------------------------------------

  lemma {:induction false} CarriesUniform(t: Tree, m: map<nat, nat>)
    requires Carries(t, m) && Small(m)
    ensures Uniform(t, 65)
  {
    forall q | IsKey(q) && Lookup(t, q) != [] ensures |q| == 65 { SlottedLength(t, m, q); }
  }

  lemma {:induction false} SlottedLength(t: Tree, m: map<nat, nat>, q: Nibbles)
    requires Carries(t, m) && Small(m) && IsKey(q) && Lookup(t, q) != []
    ensures |q| == 65
  {
    assert IsSlotKey(q);
    var k :| q == SlotKey(k);
    assert Bound(t, m, k);
    SmallSlot(t, m, k);
  }

  lemma {:induction false} SmallSlot(t: Tree, m: map<nat, nat>, k: nat)
    requires Bound(t, m, k) && Lookup(t, SlotKey(k)) != [] && Small(m)
    ensures |SlotKey(k)| == 65
  {
  }

  lemma {:induction false} PlainSolid(t: Tree, n: nat)
    requires Plain(t, n)
    ensures Solid(t)
    decreases t
  {
    match t
    case Short(k, c) => PlainSolid(c, n - |k|);
    case Full(cs) => forall i | 0 <= i < |cs| ensures Solid(cs[i]) { PlainSolid(cs[i], n - 1); }
    case _ =>
  }

  /** No storage value is stored as 00. */
  lemma {:induction false} NotZero(v: nat)
    ensures Encoded(v) != [0]
  {
    BigBytesValue(v);
    EncodedZero(BigBytes(v));
  }

  lemma {:induction false} CarriesZeroFree(t: Tree, m: map<nat, nat>)
    requires Node(t) && Carries(t, m)
    ensures ZeroFree(t)
  {
    forall q | IsKey(q) ensures Lookup(t, q) != [0] {
      if Lookup(t, q) != [] {
        assert IsSlotKey(q);
        var k :| q == SlotKey(k);
        assert Bound(t, m, k);
        if k in m { NotZero(m[k]); }
      }
    }
    NoZeroFound(t);
  }

  lemma {:induction false} NoZeroFound(t: Tree)
    requires Node(t) && forall q | IsKey(q) :: Lookup(t, q) != [0]
    ensures ZeroFree(t)
    decreases t
  {
    match t
    case Empty =>
    case Void =>
    case Short(k, c) =>
      if IsKey(k) {
        assert k[|k|..] == [];
        assert Lookup(t, k) == Lookup(c, []);
      } else {
        forall q | IsKey(q) ensures Lookup(c, q) != [0] { ShortAt(k, c, q); }
        NoZeroFound(c);
      }
    case Full(cs) =>
      forall i | 0 <= i < 17 ensures ZeroFree(cs[i]) {
        if i < 16 {
          forall q | IsKey(q) ensures Lookup(cs[i], q) != [0] { FullAt(cs, i, q); }
          NoZeroFound(cs[i]);
        } else {
          var w: Nibbles := [16];
          assert w[1..] == [] && Lookup(t, w) == Lookup(cs[16], []);
        }
      }
  }

  /** The mode makes no difference to what a delete does to a tree. */
  lemma {:induction false} SameFold(h: Codec, h': Codec, ds: seq<Tree>, a: int)
    requires SameCodec(h, h') && -2 <= a < |ds|
    ensures FoldOf(h', ds, a) == FoldOf(h, ds, a)
  {
    if 0 <= a < 16 && ds[a].Short? { SameRef(h, h', ds[a].c); }
  }

  lemma {:induction false} SameDeleted(h: Codec, h': Codec, t: Tree, key: Nibbles)
    requires SameCodec(h, h') && Insertable(t, key)
    ensures Deleted(h', t, key) == Deleted(h, t, key)
    decreases |key|
  {
    if key != [] {
      match t
      case Empty =>
      case Void =>
      case Short(k, c) =>
        if Passes(k, key) {
          Below(k, c, key);
          SameDeleted(h, h', c, key[|k|..]);
        }
      case Full(cs) =>
        KeyTail(key, 0);
        SameDeleted(h, h', cs[key[0]], key[1..]);
        var ds := cs[key[0] := Deleted(h, cs[key[0]], key[1..])];
        SameFold(h, h', ds, Amount(Filled(ds)));
    }
  }

  lemma {:induction false} SameLeftOver(h: Codec, h': Codec, t: Tree, key: Nibbles, u: Tree)
    requires SameCodec(h, h') && Insertable(t, key) && u in LeftOver(h', t, key)
    ensures u in LeftOver(h, t, key)
    decreases |key|
  {
    if key != [] {
      match t
      case Empty =>
      case Void =>
      case Short(k, c) =>
        if k != key && Passes(k, key) {
          Below(k, c, key);
          var c' :| c' in LeftOver(h', c, key[|k|..]) && u == Join(k, c');
          SameLeftOver(h, h', c, key[|k|..], c');
        }
      case Full(cs) =>
        KeyTail(key, 0);
        var i := key[0];
        var child :| child in LeftOver(h', cs[i], key[1..]) && u in Foldings(h', cs, i, child);
        var a :| -2 <= a < 17 && Single(cs[i := child], a) && u == FoldOf(h', cs[i := child], a);
        SameLeftOver(h, h', cs[i], key[1..], child);
        SameFold(h, h', cs[i := child], a);
        LeftOverFull(h, cs, key, child, a);
    }
  }

  ghost function StageOf(trie: Trie): Stage
    reads trie
  {
    Stage(trie.tree, trie.h.mode)
  }

  /** What a delete of the object comes to is a step. */
  lemma {:induction false} DeleteSteps(h: Codec, h0: Codec, h': Codec, t: Tree, k: nat, status: Status, u: Tree)
    requires SameCodec(h, h0) && SameCodec(h, h') && h0.mode != Faded && Node(t) && ZeroFree(t)
    requires h0.mode == Built ==> Plain(t, |SlotKey(k)|)
    requires h'.mode == DeleteMode(h0, t, Place(k)) && Deletes(h', t, Place(k), 0, status, u) && status != Panicked
    ensures Step(h, Stage(t, h0.mode), k, 0, Stage(u, h'.mode))
  {
    var key := SlotKey(k);
    if h0.mode == Built {
      SameDeleted(h, h', t, key);
      PlainDeleted(h, t, key);
    } else if !Firm(Stage(t, h0.mode), k) {
      if u in LeftOver(h', t, key) { SameLeftOver(h, h', t, key, u); } else { SameLeftOver(h, h', t, key, Void); }
    }
  }

  /** The trie can be worked on: it holds some slots, and if nothing was loaded its parts fit. */
  ghost predicate Workable(trie: Trie, h: Codec, m: map<nat, nat>)
    reads trie
  {
    && trie.Valid() && SameCodec(h, trie.h) && trie.h.mode != Faded && Carries(trie.tree, m)
    && (trie.h.mode == Built ==> Plain(trie.tree, 65))
  }

  method TakeTurn(trie: Trie, k: nat, v: nat, ghost h: Codec, ghost m: map<nat, nat>) returns (panicked: bool)
    requires Workable(trie, h, m) && k < Pow256(32)
    modifies trie
    ensures panicked ==> v == 0 && Overruns(old(trie.tree), SlotKey(k), 0)
    ensures !panicked ==>
              && trie.Valid() && SameCodec(h, trie.h) && trie.h.mode != Faded
              && Step(h, old(StageOf(trie)), k, v, StageOf(trie))
  {
    if v == 0 {
      panicked := ClearSlot(trie, k, h, m);
    } else {
      PutSlot(trie, k, v, h, m);
      panicked := false;
    }
  }

  method ClearSlot(trie: Trie, k: nat, ghost h: Codec, ghost m: map<nat, nat>) returns (panicked: bool)
    requires Workable(trie, h, m) && k < Pow256(32)
    modifies trie
    ensures panicked ==> Overruns(old(trie.tree), SlotKey(k), 0)
    ensures !panicked ==>
              && trie.Valid() && SameCodec(h, trie.h) && trie.h.mode != Faded
              && Step(h, old(StageOf(trie)), k, 0, StageOf(trie))
  {
    CarriesZeroFree(trie.tree, m);
    var status := trie.Delete(Place(k), []);
    panicked := status == Panicked;
    if !panicked { DeleteSteps(h, old(trie.h), trie.h, old(trie.tree), k, status, trie.tree); }
  }

  method PutSlot(trie: Trie, k: nat, v: nat, ghost h: Codec, ghost m: map<nat, nat>)
    requires Workable(trie, h, m) && v != 0
    modifies trie
    ensures trie.Valid() && SameCodec(h, trie.h) && trie.h.mode != Faded
    ensures Step(h, old(StageOf(trie)), k, v, StageOf(trie))
  {
    CarriesZeroFree(trie.tree, m);
    trie.Update(Place(k), Encoded(v));
  }

  /** Halfway through the cache. */
  ghost predicate Halfway(trie: Trie, h: Codec, cache: map<nat, nat>, order: seq<nat>, i: nat, trail: seq<Stage>, cur: map<nat, nat>)
    reads trie
  {
    && i <= |order| && Workable(trie, h, cur) && AllCached(cache, order)
    && Trail(h, cache, order[..i], trail) && Last(trail) == StageOf(trie)
    && (Quiet(h, trail[0], cache, order) && Well(trail[0]) ==> Well(StageOf(trie)) && Quiet(h, StageOf(trie), cache, order[i..]))
  }

  lemma {:induction false} TrailSnoc(h: Codec, cache: map<nat, nat>, order: seq<nat>, i: nat, trail: seq<Stage>, s: Stage)
    requires AllCached(cache, order) && i < |order| && Trail(h, cache, order[..i], trail)
    requires Step(h, Last(trail), order[i], cache[order[i]], s)
    ensures Trail(h, cache, order[..i + 1], trail + [s]) && Last(trail + [s]) == s && (trail + [s])[0] == trail[0]
  {
    var more, order' := trail + [s], order[..i + 1];
    forall j | 0 <= j < |order'| ensures StepAt(h, cache, order', more, j) {
      if j < i { assert StepAt(h, cache, order[..i], trail, j); }
    }
  }

  lemma {:induction false} QuietStep(h: Codec, s: Stage, cache: map<nat, nat>, order: seq<nat>, s': Stage)
    requires h.mode != Faded && Well(s) && AllCached(cache, order) && order != [] && order[0] < Pow256(32)
    requires Quiet(h, s, cache, order) && Step(h, s, order[0], cache[order[0]], s')
    ensures Well(s') && Quiet(h, s', cache, order[1..])
  {
    if cache[order[0]] == 0 { QuietDelete(h, s, order[0], cache, order, s'); } else { QuietPut(h, s, order[0], cache, order, s'); }
  }

  lemma {:induction false} BuiltPlain(h: Codec, s: Stage, k: nat, v: nat, s': Stage)
    requires h.mode != Faded && s.mode == Built && Plain(s.tree, 65) && Step(h, s, k, v, s') && k < Pow256(32)
    ensures s'.mode == Built && Plain(s'.tree, 65)
  {
    if v == 0 { PlainDeleted(h, s.tree, SlotKey(k)); } else { PlainInsert(s.tree, SlotKey(k), Encoded(v)); }
  }

  /** The next slot of the cache. */
  method TakeNext(trie: Trie, ghost h: Codec, cache: map<nat, nat>, order: seq<nat>, i: nat,
                  ghost trail: seq<Stage>, ghost cur: map<nat, nat>)
    returns (panicked: bool, ghost trail': seq<Stage>, ghost cur': map<nat, nat>)
    requires h.mode != Faded && i < |order| && Halfway(trie, h, cache, order, i, trail, cur) && Small(cache)
    modifies trie
    ensures !panicked ==> Halfway(trie, h, cache, order, i + 1, trail', cur') && trail'[0] == trail[0]
    ensures panicked ==> trail[0].mode != Built && !(Quiet(h, trail[0], cache, order) && Well(trail[0]))
  {
    ghost var s := StageOf(trie);
    trail', cur' := trail, cur;
    panicked := TakeTurn(trie, order[i], cache[order[i]], h, cur);
    if panicked {
      NotPlain(h, cache, order, i, trail, order[i]);
      return;
    }
    ghost var s' := StageOf(trie);
    trail', cur' := trail + [s'], TurnOn(cur, cache, TurnBy(cur, order[i], cache[order[i]], s'.tree));
    NextOk(h, cache, order, i, trail, cur, s');
  }

  lemma {:induction false} NextOk(h: Codec, cache: map<nat, nat>, order: seq<nat>, i: nat, trail: seq<Stage>, cur: map<nat, nat>, s': Stage)
    requires h.mode != Faded && i < |order| && AllCached(cache, order) && Small(cache) && Trail(h, cache, order[..i], trail)
    requires Carries(Last(trail).tree, cur) && Step(h, Last(trail), order[i], cache[order[i]], s')
    requires Last(trail).mode == Built ==> Plain(Last(trail).tree, 65)
    requires Quiet(h, trail[0], cache, order) && Well(trail[0]) ==> Well(Last(trail)) && Quiet(h, Last(trail), cache, order[i..])
    ensures Trail(h, cache, order[..i + 1], trail + [s']) && Last(trail + [s']) == s' && (trail + [s'])[0] == trail[0]
    ensures Carries(s'.tree, TurnOn(cur, cache, TurnBy(cur, order[i], cache[order[i]], s'.tree)))
    ensures s'.mode == Built ==> Plain(s'.tree, 65)
    ensures Quiet(h, trail[0], cache, order) && Well(trail[0]) ==> Well(s') && Quiet(h, s', cache, order[i + 1..])
  {
    var k, v, s := order[i], cache[order[i]], Last(trail);
    TrailSnoc(h, cache, order, i, trail, s');
    StepCarries(h, s, cur, cache, k, s');
    if s.mode == Built { BuiltPlain(h, s, k, v, s'); }
    var rest := order[i..];
    assert rest[0] == k && rest[1..] == order[i + 1..];
    if Quiet(h, trail[0], cache, order) && Well(trail[0]) { QuietStep(h, s, cache, rest, s'); }
  }

  /** A panic means that a part does not fit, which is not so if nothing was loaded or the run
      is quiet. */
  lemma {:induction false} NotPlain(h: Codec, cache: map<nat, nat>, order: seq<nat>, i: nat, trail: seq<Stage>, k: nat)
    requires i <= |order| && Trail(h, cache, order[..i], trail) && k < Pow256(32) && Node(Last(trail).tree)
    requires Overruns(Last(trail).tree, SlotKey(k), 0)
    ensures !Plain(Last(trail).tree, 65)
    ensures trail[0].mode == Built ==> Last(trail).mode == Built
  {
    if Plain(Last(trail).tree, 65) { PlainRoom(Last(trail).tree, SlotKey(k), 0); }
    ModeKept(h, cache, order[..i], trail);
  }

  lemma {:induction false} ModeKept(h: Codec, cache: map<nat, nat>, order: seq<nat>, trail: seq<Stage>)
    requires Trail(h, cache, order, trail)
    ensures trail[0].mode == Built ==> Last(trail).mode == Built
    decreases |order|
  {
    if order != [] {
      TrailStep(h, cache, order, trail);
      ModeKept(h, cache, order[1..], trail[1..]);
    }
  }

  method TakeTurns(trie: Trie, cache: map<nat, nat>, order: seq<nat>, ghost m: map<nat, nat>)
    returns (panicked: bool, ghost trail: seq<Stage>)
    requires Workable(trie, trie.h, m) && AllCached(cache, order) && Small(cache)
    modifies trie
    ensures panicked ==> old(trie.h.mode) != Built && !(Quiet(old(trie.h), old(StageOf(trie)), cache, order) && Well(old(StageOf(trie))))
    ensures !panicked ==>
              && trie.Valid() && SameCodec(old(trie.h), trie.h) && trie.h.mode != Faded
              && Trail(old(trie.h), cache, order, trail) && trail[0] == old(StageOf(trie)) && Last(trail) == StageOf(trie)
  {
    ghost var h, cur := trie.h, m;
    trail := [StageOf(trie)];
    assert order[..0] == [] && order[0..] == order;
    for i := 0 to |order|
      invariant Halfway(trie, h, cache, order, i, trail, cur) && trail[0] == old(StageOf(trie))
    {
      panicked, trail, cur := TakeNext(trie, h, cache, order, i, trail, cur);
      if panicked { return; }
    }
    assert order[..|order|] == order;
    panicked := false;
  }

  /** `StateObject.Sync` on the trie object, whatever of it was loaded: every slot at its turn, and
      the rebuilt trie in place of one that `ParanoiaCheck` finds different. */
  method SyncStorage(trie: Trie, cache: map<nat, nat>, order: seq<nat>, ghost m: map<nat, nat>)
    returns (panicked: bool, trie': Trie, ghost trail: seq<Stage>)
    requires trie.Valid() && trie.h.mode != Faded && Canonical(trie.tree) && Carries(trie.tree, m)
    requires Orders(cache, order) && Small(m) && Small(cache)
    modifies trie
    ensures old(trie.h.mode) == Built ==> !panicked
    ensures !panicked ==>
              && trie'.Valid() && trie'.h.mode != Faded
              && Trail(old(trie.h), cache, order, trail) && trail[0] == old(StageOf(trie))
    ensures !panicked && Solid(Last(trail).tree) ==>
              && Canonical(trie'.tree)
              && Carries(trie'.tree, SyncMap(m, cache, PlanBy(m, cache, order, trail)))
    ensures Quiet(old(trie.h), old(StageOf(trie)), cache, order) ==>
              !panicked && Canonical(trie'.tree) && Carries(trie'.tree, Overlay(m, cache))
  {
    CarriesUniform(trie.tree, m);
    UniformPlain(trie.tree, 65);
    trie' := trie;
    panicked, trail := TakeTurns(trie, cache, order, m);
    if panicked { return; }
    var same, t2 := ParanoiaCheck(trie);
    trie' := if same then trie else t2;
    Finished(old(trie.h), m, cache, order, trail, trie'.tree);
  }

  lemma {:induction false} Finished(h: Codec, m: map<nat, nat>, cache: map<nat, nat>, order: seq<nat>, trail: seq<Stage>, u: Tree)
    requires h.mode != Faded && Trail(h, cache, order, trail) && Well(trail[0]) && Carries(trail[0].tree, m)
    requires Orders(cache, order) && Small(cache)
    requires Solid(Last(trail).tree) ==> Canonical(u) && SameBindings(u, Last(trail).tree)
    ensures Solid(Last(trail).tree) ==> Carries(u, SyncMap(m, cache, PlanBy(m, cache, order, trail)))
    ensures Quiet(h, trail[0], cache, order) ==> Canonical(u) && Carries(u, Overlay(m, cache))
  {
    SyncCarries(h, m, cache, order, trail);
    if Solid(Last(trail).tree) { CarriesSame(Last(trail).tree, u, SyncMap(m, cache, PlanBy(m, cache, order, trail))); }
    if Quiet(h, trail[0], cache, order) {
      QuietCarries(h, m, cache, order, trail);
      PlainSolid(Last(trail).tree, 65);
      CarriesSame(Last(trail).tree, u, Overlay(m, cache));
    }
  }

  /** The storage trie of an account that is read from its record: all of it is as it is loaded. */
  method OpenStorage(h: Codec, db: map<seq<byte>, Content>, root: Item, ghost t: Tree) returns (trie: Trie)
    requires Sound(h) && h.base == Read && (forall k | k in db :: k == h.sha(db[k]))
    requires Canonical(t) && Bytewise(t) && IsRoot(Stored(h), Store(map[], db, false), root, t)
    ensures fresh(trie) && trie.Valid() && StageOf(trie) == Stage(t, Opened(0)) && SameCodec(h, trie.h)
  {
    CanonicalNode(t);
    assert t.Full? ==> Forked(t.cs);
    var h' := h.(mode := Opened(0));
    assert Stored(h') == Stored(h);
    trie := new Trie(h', db, root, t);
  }
}
