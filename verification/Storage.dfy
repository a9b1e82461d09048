/** The storage of an account: a cache over a trie, and what it comes to when the cache is
    written to the trie (`StateObject.Sync` of `monkstate/state_object.go`). */
module Storage {

  /** One cached slot at its turn. The order of the turns is that in which Go happens to range
      over a map; a delete may take other slots out of the trie, and `lost` are those. Which
      they can be, `StorageTrie` says. */
  datatype Turn = Turn(slot: nat, lost: set<nat>)

  type Plan = seq<Turn>

  /** Storage as it is read: what is cached goes first, and zero is the same as nothing. */
  function Overlay(disk: map<nat, nat>, cache: map<nat, nat>): map<nat, nat> {
    map k | k in disk.Keys + cache.Keys && (k in cache ==> cache[k] != 0) :: if k in cache then cache[k] else disk[k]
  }

  /** One slot of the cache: zero is deleted, anything else is put. */
  function TurnOn(disk: map<nat, nat>, cache: map<nat, nat>, turn: Turn): map<nat, nat> {
    if turn.slot !in cache then disk
    else if cache[turn.slot] == 0 then disk - {turn.slot} - turn.lost
    else disk[turn.slot := cache[turn.slot]]
  }

  /** What is in the trie at the end. */
  function SyncMap(disk: map<nat, nat>, cache: map<nat, nat>, plan: Plan): map<nat, nat>
    decreases |plan|
  {
    if plan == [] then disk else SyncMap(TurnOn(disk, cache, plan[0]), cache, plan[1..])
  }

  /** With nothing cached nothing changes. */
  lemma {:induction false} NothingCached(disk: map<nat, nat>, plan: Plan)
    ensures SyncMap(disk, map[], plan) == disk
    decreases |plan|
  {
    if plan != [] { NothingCached(disk, plan[1..]); }
  }

  predicate HasTurn(plan: Plan, k: nat) {
    exists i | 0 <= i < |plan| :: plan[i].slot == k
  }

  /** The turns are those of the cached slots. */
  ghost predicate TakesAll(cache: map<nat, nat>, plan: Plan) {
    forall k :: HasTurn(plan, k) <==> k in cache
  }

  /** Only deletes lose anything, and only what is there. */
  predicate Real(disk: map<nat, nat>, cache: map<nat, nat>, plan: Plan)
    decreases |plan|
  {
    plan == [] ||
    (var turn := plan[0];
     && turn.slot in cache && turn.lost <= disk.Keys - {turn.slot} && (cache[turn.slot] != 0 ==> turn.lost == {})
     && Real(TurnOn(disk, cache, turn), cache, plan[1..]))
  }

  /** No delete loses anything. */
  predicate Calm(plan: Plan) {
    forall i | 0 <= i < |plan| :: plan[i].lost == {}
  }

  /** The slot is lost when its own turn is not to come any more. */
  predicate Gone(plan: Plan, k: nat)
    decreases |plan|
  {
    plan != [] && ((k in plan[0].lost && !HasTurn(plan[1..], k)) || Gone(plan[1..], k))
  }

  /** Every slot that is lost still has its own turn to come. */
  ghost predicate AllReturn(plan: Plan) {
    forall k :: !Gone(plan, k)
  }

  lemma {:induction false} FirstTurn(plan: Plan, k: nat)
    requires plan != []
    ensures HasTurn(plan, k) <==> plan[0].slot == k || HasTurn(plan[1..], k)
  {
    var rest := plan[1..];
    if HasTurn(plan, k) {
      var i :| 0 <= i < |plan| && plan[i].slot == k;
      if i > 0 { assert rest[i - 1].slot == k; }
    }
    if HasTurn(rest, k) {
      var i :| 0 <= i < |rest| && rest[i].slot == k;
      assert plan[i + 1].slot == k;
    }
  }

  /** One slot at the end. */
  lemma {:induction false} SlotEnd(disk: map<nat, nat>, cache: map<nat, nat>, plan: Plan, k: nat)
    requires Real(disk, cache, plan) && (HasTurn(plan, k) ==> k in cache)
    ensures var m := SyncMap(disk, cache, plan);
            && (k in m <==> (if HasTurn(plan, k) then cache[k] != 0 else k in disk) && !Gone(plan, k))
            && (k in m ==> m[k] == if HasTurn(plan, k) then cache[k] else disk[k])
    decreases |plan|
  {
    if plan != [] {
      FirstTurn(plan, k);
      SlotEnd(TurnOn(disk, cache, plan[0]), cache, plan[1..], k);
    }
  }

  lemma {:induction false} GoneWasThere(disk: map<nat, nat>, cache: map<nat, nat>, plan: Plan, k: nat)
    requires Real(disk, cache, plan) && Gone(plan, k) && (HasTurn(plan, k) ==> k in cache)
    ensures if HasTurn(plan, k) then cache[k] != 0 else k in disk
    decreases |plan|
  {
    FirstTurn(plan, k);
    if Gone(plan[1..], k) { GoneWasThere(TurnOn(disk, cache, plan[0]), cache, plan[1..], k); }
  }

  /** The trie has at the end what is read exactly if every slot that is lost returns. */
  lemma {:induction false} SyncExact(disk: map<nat, nat>, cache: map<nat, nat>, plan: Plan)
    requires TakesAll(cache, plan) && Real(disk, cache, plan)
    ensures SyncMap(disk, cache, plan) == Overlay(disk, cache) <==> AllReturn(plan)
  {
    var m, o := SyncMap(disk, cache, plan), Overlay(disk, cache);
    if m == o {
      forall k ensures !Gone(plan, k) { SlotExact(disk, cache, plan, k); }
    }
    if AllReturn(plan) {
      forall k ensures (k in m <==> k in o) && (k in m ==> m[k] == o[k]) { SlotExact(disk, cache, plan, k); }
      assert m == o;
    }
  }

  lemma {:induction false} SlotExact(disk: map<nat, nat>, cache: map<nat, nat>, plan: Plan, k: nat)
    requires TakesAll(cache, plan) && Real(disk, cache, plan)
    ensures var m, o := SyncMap(disk, cache, plan), Overlay(disk, cache);
            && (k in m <==> k in o && !Gone(plan, k)) && (k in m ==> m[k] == o[k])
            && (Gone(plan, k) ==> k in o)
  {
    SlotEnd(disk, cache, plan, k);
    if Gone(plan, k) { GoneWasThere(disk, cache, plan, k); }
  }

  lemma {:induction false} CalmKeeps(plan: Plan, k: nat)
    requires Calm(plan)
    ensures !Gone(plan, k)
    decreases |plan|
  {
    if plan != [] {
      assert plan[0].lost == {};
      CalmKeeps(plan[1..], k);
    }
  }

  lemma {:induction false} CalmReal(disk: map<nat, nat>, cache: map<nat, nat>, plan: Plan)
    requires Calm(plan) && forall i | 0 <= i < |plan| :: plan[i].slot in cache
    ensures Real(disk, cache, plan)
    decreases |plan|
  {
    if plan != [] {
      assert plan[0].lost == {};
      CalmReal(TurnOn(disk, cache, plan[0]), cache, plan[1..]);
    }
  }

  /** If no delete loses anything the order does not matter. */
  lemma {:induction false} CalmSync(disk: map<nat, nat>, cache: map<nat, nat>, plan: Plan)
    requires TakesAll(cache, plan) && Calm(plan)
    ensures SyncMap(disk, cache, plan) == Overlay(disk, cache)
  {
    forall i | 0 <= i < |plan| ensures plan[i].slot in cache { assert HasTurn(plan, plan[i].slot); }
    CalmReal(disk, cache, plan);
    forall k ensures !Gone(plan, k) { CalmKeeps(plan, k); }
    SyncExact(disk, cache, plan);
  }

  /** Reading through the cache. */
  function Read(disk: map<nat, nat>, cache: map<nat, nat>, k: nat): nat {
    if k in cache then cache[k] else if k in disk then disk[k] else 0
  }

  /** What `GetStorage` leaves in the cache. */
  function Loaded(disk: map<nat, nat>, cache: map<nat, nat>, k: nat): map<nat, nat> {
    if k !in cache && k in disk then cache[k := disk[k]] else cache
  }
}
