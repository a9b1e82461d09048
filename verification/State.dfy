/** `monkstate/state.go` and `monkstate/state_object.go`: account objects over a trie, and the
    snapshots that a transaction takes of them. */
module State {
  import opened Bytes
  import opened Storage
  import opened World

  /** A `big.Int`, known to belong to one account object. */
  class Amount {
    var n: int
    ghost var owner: StateObject?

    constructor (n: int)
      ensures this.n == n
    {
      this.n, this.owner := n, null;
    }
  }

  class StateObject {
    const address: Addr
    var balance: Amount
    var nonce: nat
    var code: seq<byte>
    /** The cache and, under it, the storage trie. */
    var storage: map<nat, nat>
    var disk: map<nat, nat>
    var pool: int

    ghost predicate Owned()
      reads `balance, balance
    {
      balance.owner == this
    }

    function View(): Account
      reads this, balance
    {
      Account(balance.n, nonce, code, disk, storage, pool)
    }

    /** `NewStateObject`, `NewStateObjectFromBytes` and `Copy`. */
    constructor (address: Addr, balance: int, nonce: nat, code: seq<byte>, storage: map<nat, nat>, disk: map<nat, nat>, pool: int)
      ensures this.address == address && Owned() && fresh(this.balance)
      ensures View() == Account(balance, nonce, code, disk, storage, pool)
    {
      this.address, this.nonce, this.code := address, nonce, code;
      this.storage, this.disk, this.pool := storage, disk, pool;
      this.balance := new Amount(balance);
      new;
      this.balance.owner := this;
    }

    /** `AddAmount`, and `SubAmount` for a negative amount: a new number is put in. */
    method AddAmount(amount: int)
      modifies `balance
      ensures Owned() && fresh(balance) && View() == old(View()).(balance := old(balance.n) + amount)
    {
      balance := new Amount(balance.n + amount);
      balance.owner := this;
    }

    /** `RefundGas`: the number itself is changed. */
    method RefundGas(gas: nat, price: nat)
      requires Owned()
      modifies `pool, balance`n
      ensures Owned() && balance == old(balance)
      ensures View() == old(View()).(balance := old(balance.n) - gas * price, pool := old(pool) + gas)
    {
      pool := pool + gas;
      var rGas := gas * price;
      balance.n := balance.n - rGas;
    }

    /** `GetStorage`: a value that is found is cached, and everything reads as before. */
    method GetStorage(key: nat) returns (value: nat)
      modifies `storage
      ensures View() == Applied(Load(key), old(View()))
      ensures value == Read(disk, storage, key)
      ensures forall k :: Read(disk, storage, k) == Read(disk, old(storage), k)
    {
      if key in storage { return storage[key]; }
      if key !in disk { return 0; }
      value := disk[key];
      storage := storage[key := value];
    }

    /** `SetStorage`: one slot reads differently. */
    method SetStorage(key: nat, value: nat)
      modifies `storage
      ensures View() == Applied(Store(key, value), old(View()))
      ensures forall k :: Read(disk, storage, k) == if k == key then value else Read(disk, old(storage), k)
    {
      storage := storage[key := value];
    }

    method Apply(op: Op)
      requires Owned()
      modifies this, balance
      ensures Owned() && View() == Applied(op, old(View())) && (balance == old(balance) || fresh(balance))
    {
      match op {
        case Add(amount) => AddAmount(amount);
        case Return(gas, price) => RefundGas(gas, price);
        case SetNonce(n) => nonce := n;
        case SetCode(c) => code := c;
        case SetPool(p) => pool := p;
        case Store(key, value) => SetStorage(key, value);
        case Load(key) => var value := GetStorage(key);
      }
    }

    /** `Sync`: the cache is written to the storage trie, slot by slot, and stays as it is. */
    method Sync(plan: Plan)
      modifies `disk
      ensures View() == old(View()).(disk := SyncMap(old(disk), storage, plan))
    {
      for i := 0 to |plan|
        invariant SyncMap(old(disk), storage, plan) == SyncMap(disk, storage, plan[i..])
        invariant View() == old(View()).(disk := disk)
      {
        assert plan[i..][0] == plan[i] && plan[i..][1..] == plan[i + 1..];
        disk := TurnOn(disk, storage, plan[i]);
      }
    }
  }

  /** What the trie has for an account. */
  datatype Record = Record(balance: int, nonce: nat, code: seq<byte>, storage: map<nat, nat>)

  function Restored(r: Record): Account {
    Account(r.balance, r.nonce, r.code, r.storage, map[], 0)
  }

  function RecordOf(v: Account): Record {
    Record(v.balance, v.nonce, v.code, v.disk)
  }

  /** The trie of a whole world. */
  function Records(w: World): map<Addr, Record> {
    map a | a in w :: RecordOf(w[a])
  }

  /** What may happen to a state between a copy and the return to it; `Nest` is a copy, some steps,
      and the return. */
  datatype Step = Change(addr: Addr, op: Op) | New(addr: Addr) | Update(plans: Plans) | Sync | Nest(steps: seq<Step>)

  class State {
    var trie: map<Addr, Record>
    var objects: map<Addr, StateObject>
    /** What the state stands for, and the heap that it uses. */
    ghost var world: World
    ghost var footprint: set<object>

    ghost predicate ObjectOk(a: Addr)
      requires a in objects
      reads `objects, `world, `footprint, footprint
    {
      var o := objects[a];
      && o in footprint && o.balance in footprint
      && o.address == a && o.Owned()
      && a in world && o.View() == world[a]
    }

    ghost predicate LoadOk(a: Addr)
      requires a in trie
      reads `trie, `world
    {
      a in world && world[a] == Restored(trie[a])
    }

    ghost predicate Ok()
      reads `trie, `objects, `world, `footprint, footprint
    {
      && world.Keys == objects.Keys + trie.Keys
      && (forall a {:trigger ObjectOk(a)} | a in objects :: ObjectOk(a))
      && (forall a {:trigger LoadOk(a)} | a in trie && a !in objects :: LoadOk(a))
      && this !in footprint
    }

    /** The object is the one the state has for its address. */
    predicate Live(o: StateObject)
      reads `objects
    {
      o.address in objects && objects[o.address] == o
    }

    constructor (trie: map<Addr, Record>)
      ensures Ok() && footprint == {} && objects == map[] && this.trie == trie
      ensures world == (map a | a in trie :: Restored(trie[a]))
    {
      this.trie, this.objects, this.footprint := trie, map[], {};
      this.world := map a | a in trie :: Restored(trie[a]);
    }

    /** An object that is not in use yet gets its place. */
    method Enter(o: StateObject, ghost v: Account)
      requires Ok() && o.Owned() && o.View() == v && o !in footprint && o.balance !in footprint
      modifies `objects, `world, `footprint
      ensures Ok() && world == old(world)[o.address := v] && objects == old(objects)[o.address := o]
      ensures footprint == old(footprint) + {o, o.balance}
    {
      var a := o.address;
      objects := objects[a := o];
      world := world[a := v];
      footprint := footprint + {o, o.balance};
      assert ObjectOk(a);
      forall b | b in objects ensures ObjectOk(b) {
        if b != a { assert old(ObjectOk(b)); }
      }
      forall b | b in trie && b !in objects ensures LoadOk(b) { assert old(LoadOk(b)); }
    }

    /** `GetStateObject`: what the trie has is loaded into an object. */
    method GetStateObject(a: Addr) returns (o: StateObject?)
      requires Ok()
      modifies `objects, `world, `footprint
      ensures Ok() && world == old(world) && fresh(footprint - old(footprint)) && footprint >= old(footprint)
      ensures o == null <==> a !in world
      ensures o != null ==> o.address == a && Live(o)
      ensures forall b | b in old(objects) :: b in objects && objects[b] == old(objects)[b]
      ensures forall b | b in objects :: b in old(objects) || fresh(objects[b])
    {
      if a in objects { assert ObjectOk(a); return objects[a]; }
      if a !in trie { return null; }
      assert LoadOk(a);
      var r := trie[a];
      o := new StateObject(a, r.balance, r.nonce, r.code, map[], r.storage, 0);
      assert o.View() == Restored(r);
      Enter(o, Restored(r));
      assert world == old(world);
    }

    /** `NewStateObject`: whatever there was at the address is replaced. */
    method NewStateObject(a: Addr) returns (o: StateObject)
      requires Ok()
      modifies `objects, `world, `footprint
      ensures Ok() && world == old(world)[a := EMPTY] && fresh(footprint - old(footprint)) && footprint >= old(footprint)
      ensures o.address == a && fresh(o) && objects == old(objects)[a := o]
    {
      o := new StateObject(a, 0, 0, [], map[], map[], 0);
      Enter(o, EMPTY);
    }

    method GetOrNewStateObject(a: Addr) returns (o: StateObject)
      requires Ok()
      modifies `objects, `world, `footprint
      ensures Ok() && world == Touch(old(world), a) && fresh(footprint - old(footprint)) && footprint >= old(footprint)
      ensures o.address == a && Live(o)
      ensures forall b | b in old(objects) :: b in objects && objects[b] == old(objects)[b]
      ensures forall b | b in objects :: b in old(objects) || fresh(objects[b])
    {
      var found := GetStateObject(a);
      if found != null { return found; }
      o := NewStateObject(a);
    }

    /** A write to an object is a write to the state if the object is the one the state has, and
        no write at all if it has been replaced. */
    method Change(o: StateObject, op: Op)
      requires Ok() && o.Owned()
      modifies `world, `footprint, o, o.balance
      ensures Ok() && o.Owned() && fresh(footprint - old(footprint)) && footprint >= old(footprint)
      ensures o.balance == old(o.balance) || fresh(o.balance)
      ensures world == if Live(o) then old(world)[o.address := Applied(op, old(world)[o.address])] else old(world)
    {
      var a := o.address;
      if Live(o) { assert ObjectOk(a); }
      o.Apply(op);
      if Live(o) {
        world, footprint := world[a := o.View()], footprint + {o.balance};
        assert ObjectOk(a);
      }
      forall b | b in objects ensures ObjectOk(b) {
        assert old(ObjectOk(b));
        if objects[b] != o {
          assert old(objects[b].balance.owner) != old(o.balance.owner);
          assert objects[b].balance == old(objects[b].balance) != old(o.balance);
        }
      }
      forall b | b in trie && b !in objects ensures LoadOk(b) { assert old(LoadOk(b)); }
    }

    /** All accounts as they are read. */
    method ReadAll() returns (w: World)
      requires Ok()
      ensures w == world
    {
      w := map a | a in objects.Keys + trie.Keys :: if a in objects then objects[a].View() else Restored(trie[a]);
      forall a | a in w ensures w[a] == world[a] {
        if a in objects { assert ObjectOk(a); } else { assert LoadOk(a); }
      }
    }

    // ---- Snapshots ------------------------------------------------------------------------------

    /** The copy has the objects at `done`, and the trie's accounts where there is no object. */
    ghost predicate Copied(copy: State, done: set<Addr>)
      requires Ok()
      reads this, footprint, copy, copy.footprint
    {
      && copy.Ok() && copy.trie == trie && copy.objects.Keys == done <= objects.Keys
      && forall a | a in copy.world && (a in done || a !in objects) :: a in world && copy.world[a] == world[a]
    }

    /** `StateObject.Copy`, into the copy of the state. */
    method CopyObject(copy: State, a: Addr, ghost done: set<Addr>)
      requires Ok() && a in objects && a !in done && Copied(copy, done)
      requires copy != this && copy !in footprint && copy.footprint !! footprint
      modifies copy
      ensures Copied(copy, done + {a})
      ensures fresh(copy.footprint - old(copy.footprint))
    {
      assert ObjectOk(a);
      var o := objects[a];
      var o' := new StateObject(a, o.balance.n, o.nonce, o.code, o.storage, o.disk, o.pool);
      assert o'.View() == world[a];
      copy.Enter(o', world[a]);
    }

    method CopyObjects(copy: State)
      requires Ok() && Copied(copy, {})
      requires copy != this && copy !in footprint && copy.footprint !! footprint
      modifies copy
      ensures Copied(copy, objects.Keys) && fresh(copy.footprint - old(copy.footprint))
    {
      var rest := objects.Keys;
      ghost var done := {};
      while rest != {}
        invariant Ok() && copy.footprint !! footprint && fresh(copy.footprint - old(copy.footprint))
        invariant rest == objects.Keys - done && Copied(copy, done)
        decreases rest
      {
        var a :| a in rest;
        CopyObject(copy, a, done);
        rest, done := rest - {a}, done + {a};
      }
      assert done == objects.Keys;
    }

    lemma {:induction false} CopiedAll(copy: State)
      requires Ok() && Copied(copy, objects.Keys)
      ensures copy.world == world
    {
    }

    /** `Copy`: objects and numbers of its own. */
    method Copy() returns (copy: State)
      requires Ok()
      ensures fresh(copy) && fresh(copy.footprint) && copy.Ok() && copy.world == world
    {
      copy := new State(trie);
      forall a | a in trie && a !in objects ensures copy.world[a] == world[a] { assert LoadOk(a); }
      CopyObjects(copy);
      CopiedAll(copy);
    }

    /** `Set`: everything is taken from the other state. */
    method Set(other: State)
      requires other.Ok() && this !in other.footprint && other != this
      modifies this
      ensures Ok() && world == old(other.world) && objects == old(other.objects)
      ensures footprint == old(other.footprint)
    {
      trie, objects := other.trie, other.objects;
      world, footprint := other.world, other.footprint;
      forall a | a in objects ensures ObjectOk(a) { assert old(other.ObjectOk(a)); }
      forall a | a in trie && a !in objects ensures LoadOk(a) { assert old(other.LoadOk(a)); }
    }

    // ---- Writing to the trie --------------------------------------------------------------------

    /** `UpdateStateObject`, after the object's `Sync`. */
    method FlushObject(a: Addr, plan: Plan)
      requires Ok() && a in objects
      modifies `trie, `world, objects[a]
      ensures Ok() && world == old(world)[a := old(world)[a].(disk := SyncMap(old(world)[a].disk, old(world)[a].cache, plan))]
      ensures trie == old(trie)[a := RecordOf(world[a])]
    {
      assert ObjectOk(a);
      var o := objects[a];
      o.Sync(plan);
      trie := trie[a := Record(o.balance.n, o.nonce, o.code, o.disk)];
      world := world[a := o.View()];
      forall b | b in objects ensures ObjectOk(b) {
        assert old(ObjectOk(b));
        if b != a { assert objects[b] != o && objects[b].balance == old(objects[b].balance); }
      }
      forall b | b in trie && b !in objects ensures LoadOk(b) { assert old(LoadOk(b)); }
    }

    /** The objects outside `rest` have been written. */
    ghost predicate Flushed(w: World, plans: Plans, rest: set<Addr>)
      reads `trie, `objects, `world
    {
      && world.Keys == w.Keys && rest <= objects.Keys <= w.Keys
      && (forall a | a in w && (a in rest || a !in objects) :: world[a] == w[a])
      && (forall a | a in objects && a !in rest :: a in trie && trie[a] == RecordOf(world[a]) && world[a] == Updated(w, plans)[a])
    }

    method FlushNext(a: Addr, ghost w: World, plans: Plans, ghost rest: set<Addr>)
      requires Ok() && Flushed(w, plans, rest) && a in rest
      modifies `trie, `world, footprint
      ensures Ok() && Flushed(w, plans, rest - {a})
    {
      assert ObjectOk(a);
      FlushObject(a, PlanAt(plans, a));
    }

    lemma {:induction false} FlushedAll(w: World, plans: Plans)
      requires Ok() && Flushed(w, plans, {})
      ensures world == Updated(w, plans) && trie == Records(world)
    {
      forall a | a in world ensures world[a] == Updated(w, plans)[a] && a in trie && trie[a] == RecordOf(world[a]) {
        if a !in objects {
          assert LoadOk(a);
          NothingCached(w[a].disk, PlanAt(plans, a));
        }
      }
    }

    /** `Update`: the trie has every account, with its storage as the plans leave it. */
    method Update(plans: Plans)
      requires Ok()
      modifies `trie, `world, footprint
      ensures Ok() && world == Updated(old(world), plans) && trie == Records(world)
    {
      var rest := objects.Keys;
      ghost var w := world;
      while rest != {}
        invariant Ok() && Flushed(w, plans, rest)
        decreases rest
      {
        var a :| a in rest;
        FlushNext(a, w, plans, rest);
        rest := rest - {a};
      }
      FlushedAll(w, plans);
    }

    /** `Sync`: the objects are dropped, with what was not written to the trie. */
    method Sync()
      requires Ok()
      modifies `objects, `world
      ensures Ok() && objects == map[] && world == (map a | a in trie :: Restored(trie[a]))
    {
      objects := map[];
      world := map a | a in trie :: Restored(trie[a]);
      forall a | a in trie ensures LoadOk(a) {}
    }

    // ---- Isolation -----------------------------------------------------------------------------

    method Step(step: Step)
      requires Ok()
      modifies this, footprint
      ensures Ok() && fresh(footprint - old(footprint))
      decreases step
    {
      match step {
        case Change(a, op) =>
          var o := GetOrNewStateObject(a);
          assert ObjectOk(a);
          Change(o, op);
        case New(a) => var o := NewStateObject(a);
        case Update(plans) => Update(plans);
        case Sync => Sync();
        case Nest(steps) => RunAndRevert(steps);
      }
    }

    method Run(steps: seq<Step>)
      requires Ok()
      modifies this, footprint
      ensures Ok() && fresh(footprint - old(footprint))
      decreases steps, 0
    {
      for i := 0 to |steps|
        invariant Ok() && fresh(footprint - old(footprint))
      {
        Step(steps[i]);
      }
    }

    /** Whatever follows a copy, `Set` to it makes every account and all storage read as it did at
        the time of the copy. */
    method RunAndRevert(steps: seq<Step>)
      requires Ok()
      modifies this, footprint
      ensures Ok() && world == old(world) && fresh(footprint)
      decreases steps, 1
    {
      var snapshot := Copy();
      ghost var theirs := snapshot.footprint;
      Run(steps);
      assert snapshot.Ok() && snapshot.footprint == theirs;
      Set(snapshot);
    }
  }
}
