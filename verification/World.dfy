/** The accounts of a state as values, and the effect of one transaction on them:
    `monkchain/state_transition.go` over `monkstate/state_object.go`. */
module World {
  import opened Bytes
  import opened Storage

  /** An address, read as a number. */
  type Addr = nat

  /** `disk` is what the storage trie has and `cache` what goes before it. `pool` is the gas pool
      of a coinbase; it is not written to the trie. */
  datatype Account = Account(balance: int, nonce: nat, code: seq<byte>, disk: map<nat, nat>, cache: map<nat, nat>,
                             pool: int)

  type World = map<Addr, Account>

  const EMPTY := Account(0, 0, [], map[], map[], 0)

  function Balance(w: World, a: Addr): int {
    if a in w then w[a].balance else 0
  }

  /** All the money at the addresses below `n`. */
  function Supply(w: World, n: nat): int {
    if n == 0 then 0 else Supply(w, n - 1) + Balance(w, n - 1)
  }

  /** The supply changes by what changes at one address. */
  lemma {:induction false} SupplyUpdate(w: World, n: nat, a: Addr, x: Account)
    ensures Supply(w[a := x], n) == Supply(w, n) + (if a < n then x.balance - Balance(w, a) else 0)
  {
    if n > 0 { SupplyUpdate(w, n - 1, a, x); }
  }

  // ---- Account operations ------------------------------------------------------------------

  /** `GetOrNewStateObject`. */
  function Touch(w: World, a: Addr): World {
    if a in w then w else w[a := EMPTY]
  }

  function Credit(w: World, a: Addr, amount: int): World
    requires a in w
  {
    w[a := w[a].(balance := w[a].balance + amount)]
  }

  lemma {:induction false} TouchSupply(w: World, n: nat, a: Addr)
    ensures Supply(Touch(w, a), n) == Supply(w, n)
  {
    if a !in w { SupplyUpdate(w, n, a, EMPTY); }
  }

  lemma {:induction false} CreditSupply(w: World, n: nat, a: Addr, amount: int)
    requires a in w && a < n
    ensures Supply(Credit(w, a, amount), n) == Supply(w, n) + amount
  {
    SupplyUpdate(w, n, a, w[a].(balance := w[a].balance + amount));
  }

  /** An amount moved between two accounts, or within one. */
  function Move(w: World, from: Addr, to: Addr, amount: int): World
    requires from in w && to in w
  {
    Credit(Credit(w, from, -amount), to, amount)
  }

  /** It does not matter which account is written first. */
  lemma {:induction false} MoveOrder(w: World, from: Addr, to: Addr, amount: int)
    requires from in w && to in w
    ensures Credit(Credit(w, to, amount), from, -amount) == Move(w, from, to, amount)
  {
  }

  lemma {:induction false} MoveSupply(w: World, n: nat, from: Addr, to: Addr, amount: int)
    requires from in w && to in w && from < n && to < n
    ensures Supply(Move(w, from, to, amount), n) == Supply(w, n)
  {
    CreditSupply(w, n, from, -amount);
    CreditSupply(Credit(w, from, -amount), n, to, amount);
  }

  /** A write to an account object. */
  datatype Op =
    | Add(amount: int)
    | Return(gas: nat, price: nat)
    | SetNonce(nonce: nat)
    | SetCode(code: seq<byte>)
    | SetPool(pool: int)
    | Store(key: nat, value: nat)
    | Load(key: nat)

  function Applied(op: Op, v: Account): Account {
    match op
    case Add(amount) => v.(balance := v.balance + amount)
    case Return(gas, price) => v.(balance := v.balance - gas * price, pool := v.pool + gas)
    case SetNonce(nonce) => v.(nonce := nonce)
    case SetCode(code) => v.(code := code)
    case SetPool(pool) => v.(pool := pool)
    case Store(key, value) => v.(cache := v.cache[key := value])
    case Load(key) => v.(cache := Loaded(v.disk, v.cache, key))
  }

  // ---- Writing storage to the tries ------------------------------------------------------------

  /** For each account the order of its slots, and what is lost. */
  type Plans = map<Addr, Plan>

  function PlanAt(plans: Plans, a: Addr): Plan {
    if a in plans then plans[a] else []
  }

  /** `Update` as far as it changes the accounts. */
  function Updated(w: World, plans: Plans): World {
    map a | a in w :: w[a].(disk := SyncMap(w[a].disk, w[a].cache, PlanAt(plans, a)))
  }

  /** All storage tries have what is read. */
  function Settled(w: World): World {
    map a | a in w :: w[a].(disk := Overlay(w[a].disk, w[a].cache))
  }

  /** Every cached slot has its turn and no delete loses anything. */
  ghost predicate CalmPlans(w: World, plans: Plans) {
    forall a | a in w :: TakesAll(w[a].cache, PlanAt(plans, a)) && Calm(PlanAt(plans, a))
  }

  /** Then the order does not matter. */
  lemma {:induction false} CalmUpdated(w: World, plans: Plans)
    requires CalmPlans(w, plans)
    ensures Updated(w, plans) == Settled(w)
  {
    forall a | a in w ensures Updated(w, plans)[a] == Settled(w)[a] {
      CalmSync(w[a].disk, w[a].cache, PlanAt(plans, a));
    }
  }

  lemma {:induction false} UpdatedSupply(w: World, plans: Plans, n: nat)
    ensures Supply(Updated(w, plans), n) == Supply(w, n)
  {
    if n > 0 { UpdatedSupply(w, plans, n - 1); }
  }

  // ---- Transactions --------------------------------------------------------------------------

  datatype Option<T> = None | Some(value: T)

  /** `to` is empty for a creation; `created` is the address it then makes, from the hash of
      sender and nonce. */
  datatype Tx = Tx(sender: Addr, nonce: nat, to: Option<Addr>, created: Addr, value: int, gas: nat, price: nat,
                   data: seq<byte>)

  const GAS_TX := 500
  const GAS_DATA := 5

  /** A write of the virtual machine to an account. */
  datatype Write = Write(addr: Addr, op: Op)

  function WriteOne(w: World, x: Write): World {
    var w' := Touch(w, x.addr);
    w'[x.addr := Applied(x.op, w'[x.addr])]
  }

  function Written(w: World, ws: seq<Write>): World
    decreases |ws|
  {
    if ws == [] then w else Written(WriteOne(w, ws[0]), ws[1..])
  }

  /** What `Eval` did: whether it failed, whether an inner call was reverted, so that all account
      objects were replaced, what it wrote, the gas left, and the output. */
  datatype Ran = Ran(failed: bool, swapped: bool, writes: seq<Write>, gas: nat, output: seq<byte>)

  /** The rules and the virtual machine: who may transact, the greatest gas value, and the run
      of a contract at an address with some gas. */
  datatype Engine = Engine(permitted: (World, Tx) -> bool, maxGas: World -> Option<nat>,
                           eval: (World, Tx, Addr, nat) -> Ran)

  predicate Permits(e: Engine, w: World, tx: Tx) {
    e.permitted(w, tx)
  }

  function MaxGas(e: Engine, w: World): Option<nat> {
    e.maxGas(w)
  }

  function RunOf(e: Engine, w: World, tx: Tx, at: Addr, gas: nat): Ran {
    e.eval(w, tx, at, gas)
  }

  /** Contracts move money and never make it, and they never gain gas. */
  ghost predicate Fair(e: Engine, n: nat) {
    && (forall w: World, tx: Tx, at: Addr, gas: nat :: RunOf(e, w, tx, at, gas).gas <= gas)
    && (forall w: World, tx: Tx, at: Addr, gas: nat ::
          Supply(Written(w, RunOf(e, w, tx, at, gas).writes), n) == Supply(w, n))
  }

  /** The machine removes no account. */
  lemma {:induction false} WrittenKeeps(w: World, ws: seq<Write>, a: Addr)
    requires a in w
    ensures a in Written(w, ws)
    decreases |ws|
  {
    if ws != [] { WrittenKeeps(WriteOne(w, ws[0]), ws[1..], a); }
  }

  datatype Error = NoError | NonceError | GasLimitTxError | OtherError

  /** The world after a transaction, the gas left, and the error. */
  datatype Outcome = Outcome(world: World, gas: nat, error: Error)

  function GasValue(tx: Tx): nat {
    tx.gas * tx.price
  }

  /** `ValidateTx`. The sender gets an account when their nonce is looked at. */
  function Validate(e: Engine, w: World, tx: Tx): (World, Error) {
    if !Permits(e, w, tx) then (w, OtherError)
    else if MaxGas(e, w).Some? && GasValue(tx) > MaxGas(e, w).value then (w, GasLimitTxError)
    else
      var w' := Touch(w, tx.sender);
      (w', if w'[tx.sender].nonce != tx.nonce then NonceError else NoError)
  }

  /** `BuyGas`: the sender pays the coinbase. The pool is looked at and not lowered. */
  function GasBought(w: World, tx: Tx, cb: Addr): (World, Error)
    requires tx.sender in w && cb in w
  {
    if w[tx.sender].balance < GasValue(tx) || w[cb].pool < tx.gas then (w, OtherError)
    else (Move(w, tx.sender, cb, GasValue(tx)), NoError)
  }

  function NextNonce(w: World, a: Addr): World
    requires a in w
  {
    w[a := w[a].(nonce := (w[a].nonce + 1) % TWO64)]
  }

  function DataGas(tx: Tx): nat {
    GAS_TX + |tx.data| * GAS_DATA
  }

  /** `preCheck`. */
  function PreCheck(e: Engine, w: World, tx: Tx, cb: Addr): (r: (World, Error))
    requires cb in w
    ensures cb in r.0 && (r.1 == NoError ==> tx.sender in r.0)
  {
    var (w', invalid) := Validate(e, w, tx);
    if invalid != NoError then (w', invalid) else GasBought(w', tx, cb)
  }

  /** `TransitionState`. */
  function Transit(e: Engine, w: World, tx: Tx, cb: Addr): Outcome
    requires cb in w
  {
    var (w', error) := PreCheck(e, w, tx, cb);
    if error != NoError then Outcome(w', 0, error) else Spend(e, NextNonce(w', tx.sender), tx, cb)
  }

  /** After the gas is bought. */
  function Spend(e: Engine, w: World, tx: Tx, cb: Addr): Outcome
    requires tx.sender in w && cb in w
  {
    if tx.gas < GAS_TX then Outcome(Refund(w, tx, cb, tx.gas, None), tx.gas, OtherError)
    else if tx.gas < DataGas(tx) then Outcome(Refund(w, tx, cb, tx.gas - GAS_TX, None), tx.gas - GAS_TX, OtherError)
    else if w[tx.sender].balance < tx.value then
      Outcome(Refund(w, tx, cb, tx.gas - DataGas(tx), None), tx.gas - DataGas(tx), OtherError)
    else if tx.to == None then Create(e, w, tx, cb) else Call(e, w, tx, cb, tx.to.value)
  }

  /** The value is taken from the sender, and then given to the new account. */
  function Paid(w: World, tx: Tx): World
    requires tx.sender in w
  {
    Credit(w, tx.sender, -tx.value)
  }

  function Made(w: World, tx: Tx): World
    requires tx.sender in w
  {
    Credit(Paid(w, tx)[tx.created := EMPTY], tx.created, tx.value)
  }

  function Create(e: Engine, w: World, tx: Tx, cb: Addr): Outcome
    requires tx.sender in w && cb in w && tx.gas >= DataGas(tx)
  {
    var made := Made(w, tx);
    Ended(made, Paid(w, tx), tx, cb, RunOf(e, made, tx, tx.created, tx.gas - DataGas(tx)), Some(tx.created))
  }

  /** The value moved to an account that may be new. */
  function Sent(w: World, tx: Tx, to: Addr): World
    requires tx.sender in w
  {
    Move(Touch(w, to), tx.sender, to, tx.value)
  }

  function Call(e: Engine, w: World, tx: Tx, cb: Addr, to: Addr): Outcome
    requires tx.sender in w && cb in w && tx.gas >= DataGas(tx)
  {
    var gas, sent := tx.gas - DataGas(tx), Sent(w, tx, to);
    if sent[to].code == [] then Finish(sent, tx, cb, Ran(false, false, [], gas, []), None)
    else Ended(sent, sent, tx, cb, RunOf(e, sent, tx, to, gas), None)
  }

  /** The end of a run: after a failure the snapshot is all there is. */
  function Ended(w: World, snapshot: World, tx: Tx, cb: Addr, ran: Ran, made: Option<Addr>): Outcome
    requires tx.sender in w && cb in w && (made.Some? ==> made.value in w)
  {
    if ran.failed then Outcome(snapshot, ran.gas, OtherError)
    else
      WrittenKeeps(w, ran.writes, tx.sender);
      WrittenKeeps(w, ran.writes, cb);
      WrittenKeeps(w, ran.writes, if made.Some? then made.value else cb);
      Finish(Written(w, ran.writes), tx, cb, ran, made)
  }

  /** The deferred `RefundGas`. It goes to the objects held since before the run, and the one of
      an address at which an account was made is no longer that of the state. */
  function Refund(w: World, tx: Tx, cb: Addr, gas: nat, made: Option<Addr>): World
    requires tx.sender in w && cb in w
  {
    var w' := if made == Some(cb) then w else Debited(w, cb, gas, tx.price);
    if made == Some(tx.sender) then w' else Credit(w', tx.sender, gas * tx.price)
  }

  function Debited(w: World, cb: Addr, gas: nat, price: nat): World
    requires cb in w
  {
    w[cb := Applied(Return(gas, price), w[cb])]
  }

  /** The end of a run that did not fail: code is stored and gas is refunded, but only in the
      account objects held since before the run. */
  function Finish(w: World, tx: Tx, cb: Addr, ran: Ran, made: Option<Addr>): Outcome
    requires tx.sender in w && cb in w && (made.Some? ==> made.value in w)
  {
    if ran.swapped then Outcome(w, ran.gas, NoError)
    else
      var coded := if made.Some? then w[made.value := w[made.value].(code := ran.output)] else w;
      Outcome(Refund(coded, tx, cb, ran.gas, made), ran.gas, NoError)
  }

  // ---- Conservation --------------------------------------------------------------------------

  /** The accounts of a transaction are within the address space. */
  predicate Proper(w: World, tx: Tx, cb: Addr, n: nat) {
    && cb in w && cb < n && tx.sender < n
    && (tx.to.Some? ==> tx.to.value < n)
    && (tx.to == None ==> tx.created < n)
  }

  /** What a creation loses: the value sent if it fails, and if not, what was at the address and
      what the refund gives away or takes for nothing. */
  function CreationLoss(e: Engine, w: World, tx: Tx, cb: Addr): int
    requires tx.sender in w
  {
    if tx.to != None || tx.gas < DataGas(tx) || w[tx.sender].balance < tx.value then 0
    else
      var ran := RunOf(e, Made(w, tx), tx, tx.created, tx.gas - DataGas(tx));
      if ran.failed then tx.value
      else Balance(Paid(w, tx), tx.created) + FinishLoss(tx, cb, ran, Some(tx.created))
  }

  /** The refund of a creation at the coinbase's address makes money, and one at the sender's
      destroys it. */
  function RefundLoss(tx: Tx, cb: Addr, gas: nat, made: Option<Addr>): int {
    (if made == Some(tx.sender) then gas * tx.price else 0) - (if made == Some(cb) then gas * tx.price else 0)
  }

  lemma {:induction false} RefundSupply(w: World, tx: Tx, cb: Addr, gas: nat, made: Option<Addr>, n: nat)
    requires tx.sender in w && cb in w && tx.sender < n && cb < n
    ensures Supply(Refund(w, tx, cb, gas, made), n) == Supply(w, n) - RefundLoss(tx, cb, gas, made)
  {
    SupplyUpdate(w, n, cb, Applied(Return(gas, tx.price), w[cb]));
    var w' := if made == Some(cb) then w else Debited(w, cb, gas, tx.price);
    CreditSupply(w', n, tx.sender, gas * tx.price);
  }

  function FinishLoss(tx: Tx, cb: Addr, ran: Ran, made: Option<Addr>): int {
    if ran.swapped then 0 else RefundLoss(tx, cb, ran.gas, made)
  }

  lemma {:induction false} FinishSupply(w: World, tx: Tx, cb: Addr, ran: Ran, made: Option<Addr>, n: nat)
    requires tx.sender in w && cb in w && tx.sender < n && cb < n && (made.Some? ==> made.value in w)
    ensures Supply(Finish(w, tx, cb, ran, made).world, n) == Supply(w, n) - FinishLoss(tx, cb, ran, made)
  {
    if !ran.swapped {
      if made.Some? { SupplyUpdate(w, n, made.value, w[made.value].(code := ran.output)); }
      var coded := if made.Some? then w[made.value := w[made.value].(code := ran.output)] else w;
      RefundSupply(coded, tx, cb, ran.gas, made, n);
    }
  }

  lemma {:induction false} EndedSupply(w: World, snapshot: World, tx: Tx, cb: Addr, ran: Ran, made: Option<Addr>, n: nat)
    requires tx.sender in w && cb in w && tx.sender < n && cb < n && (made.Some? ==> made.value in w)
    requires Supply(Written(w, ran.writes), n) == Supply(w, n)
    ensures Supply(Ended(w, snapshot, tx, cb, ran, made).world, n)
            == if ran.failed then Supply(snapshot, n) else Supply(w, n) - FinishLoss(tx, cb, ran, made)
  {
    if !ran.failed {
      WrittenKeeps(w, ran.writes, tx.sender);
      WrittenKeeps(w, ran.writes, cb);
      WrittenKeeps(w, ran.writes, if made.Some? then made.value else cb);
      FinishSupply(Written(w, ran.writes), tx, cb, ran, made, n);
    }
  }

  lemma {:induction false} CallSupply(e: Engine, w: World, tx: Tx, cb: Addr, to: Addr, n: nat)
    requires Fair(e, n) && tx.sender in w && cb in w && tx.sender < n && cb < n && to < n && tx.gas >= DataGas(tx)
    ensures Supply(Call(e, w, tx, cb, to).world, n) == Supply(w, n)
  {
    var gas, sent := tx.gas - DataGas(tx), Sent(w, tx, to);
    TouchSupply(w, n, to);
    MoveSupply(Touch(w, to), n, tx.sender, to, tx.value);
    if sent[to].code == [] {
      FinishSupply(sent, tx, cb, Ran(false, false, [], gas, []), None, n);
    } else {
      EndedSupply(sent, sent, tx, cb, RunOf(e, sent, tx, to, gas), None, n);
    }
  }

  lemma {:induction false} CreateSupply(e: Engine, w: World, tx: Tx, cb: Addr, n: nat)
    requires Fair(e, n) && tx.sender in w && Proper(w, tx, cb, n) && tx.to == None && tx.gas >= DataGas(tx)
    requires w[tx.sender].balance >= tx.value
    ensures Supply(Create(e, w, tx, cb).world, n)
            == Supply(w, n) - CreationLoss(e, w, tx, cb)
  {
    MadeSupply(w, tx, n);
    var made := Made(w, tx);
    var ran := RunOf(e, made, tx, tx.created, tx.gas - DataGas(tx));
    EndedSupply(made, Paid(w, tx), tx, cb, ran, Some(tx.created), n);
  }

  lemma {:induction false} MadeSupply(w: World, tx: Tx, n: nat)
    requires tx.sender in w && tx.sender < n && tx.created < n
    ensures Supply(Paid(w, tx), n) == Supply(w, n) - tx.value
    ensures Supply(Made(w, tx), n) == Supply(w, n) - Balance(Paid(w, tx), tx.created)
  {
    CreditSupply(w, n, tx.sender, -tx.value);
    SupplyUpdate(Paid(w, tx), n, tx.created, EMPTY);
    CreditSupply(Paid(w, tx)[tx.created := EMPTY], n, tx.created, tx.value);
  }

  lemma {:induction false} SpendSupply(e: Engine, w: World, tx: Tx, cb: Addr, n: nat)
    requires Fair(e, n) && tx.sender in w && Proper(w, tx, cb, n)
    ensures Supply(Spend(e, w, tx, cb).world, n)
            == Supply(w, n) - CreationLoss(e, w, tx, cb)
  {
    if tx.gas < GAS_TX { RefundSupply(w, tx, cb, tx.gas, None, n); }
    else if tx.gas < DataGas(tx) { RefundSupply(w, tx, cb, tx.gas - GAS_TX, None, n); }
    else if w[tx.sender].balance < tx.value { RefundSupply(w, tx, cb, tx.gas - DataGas(tx), None, n); }
    else if tx.to == None { CreateSupply(e, w, tx, cb, n); }
    else { CallSupply(e, w, tx, cb, tx.to.value, n); }
  }

  function Lost(e: Engine, w: World, tx: Tx, cb: Addr): int
    requires cb in w
  {
    var (w', error) := PreCheck(e, w, tx, cb);
    if error != NoError then 0 else CreationLoss(e, NextNonce(w', tx.sender), tx, cb)
  }

  lemma {:induction false} PreCheckSupply(e: Engine, w: World, tx: Tx, cb: Addr, n: nat)
    requires cb in w && cb < n && tx.sender < n
    ensures Supply(PreCheck(e, w, tx, cb).0, n) == Supply(w, n)
  {
    TouchSupply(w, n, tx.sender);
    var (w', invalid) := Validate(e, w, tx);
    if invalid == NoError { MoveSupply(w', n, tx.sender, cb, GasValue(tx)); }
  }

  /** Every way through a transaction keeps the supply, whichever of sender, receiver and coinbase
      are the same, but for a failed creation, or one at an address in use, which may also be
      the coinbase's or the sender's. */
  lemma {:induction false} TransitSupply(e: Engine, w: World, tx: Tx, cb: Addr, n: nat)
    requires Fair(e, n) && Proper(w, tx, cb, n)
    ensures Supply(Transit(e, w, tx, cb).world, n) == Supply(w, n) - Lost(e, w, tx, cb)
  {
    PreCheckSupply(e, w, tx, cb, n);
    var (w', error) := PreCheck(e, w, tx, cb);
    if error == NoError {
      SupplyUpdate(w', n, tx.sender, w'[tx.sender].(nonce := (w'[tx.sender].nonce + 1) % TWO64));
      SpendSupply(e, NextNonce(w', tx.sender), tx, cb, n);
    }
  }

  /** At an unused address only a failed creation loses anything, and then just the value. */
  lemma {:induction false} UnusedLoss(e: Engine, w: World, tx: Tx, cb: Addr)
    requires cb in w && tx.created !in w && tx.created != tx.sender
    ensures Lost(e, w, tx, cb) == 0 ||
            (tx.to == None && Transit(e, w, tx, cb).error != NoError && Lost(e, w, tx, cb) == tx.value)
  {
  }

  /** The gas left is never more than was bought. */
  lemma {:induction false} GasLeft(e: Engine, w: World, tx: Tx, cb: Addr, n: nat)
    requires Fair(e, n) && cb in w
    ensures Transit(e, w, tx, cb).gas <= tx.gas
  {
  }
}
