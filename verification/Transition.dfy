/** `monkchain/state_transition.go` as it is written: account objects that are held on to while
    the state may replace them. It does what `World.Transit` says. */
module Transition {
  import opened Bytes
  import opened World
  import opened State

  class StateTransition {
    const e: Engine
    const state: State
    const tx: Tx
    const coinbase: Addr
    var gas: nat
    var cb: StateObject
    var sen: StateObject?
    var rec: StateObject?
    /** All that may be written through the state and the objects held. */
    ghost var reach: set<object>

    ghost predicate Held(o: StateObject)
      reads `reach, reach
    {
      o in reach && o.balance in reach && o.Owned()
    }

    ghost predicate Valid()
      reads this, state, reach
    {
      && state !in reach && this !in reach
      && state.footprint <= reach && state.Ok()
      && Held(cb) && cb.address == coinbase
      && (sen != null ==> Held(sen) && sen.address == tx.sender)
      && (rec != null ==> Held(rec))
    }

    /** Where a new account was made. */
    ghost function MadeAt(): Option<Addr>
      reads `rec
    {
      if rec == null then None else Some(rec.address)
    }

    /** The objects held are those of the state, except where the new account was made. */
    ghost predicate Current()
      reads this, state
    {
      && (state.Live(cb) <==> MadeAt() != Some(coinbase))
      && (sen != null ==> (state.Live(sen) <==> MadeAt() != Some(tx.sender)))
      && (rec != null ==> state.Live(rec))
    }

    /** The objects held have been replaced. */
    ghost predicate Replaced()
      reads this, state
    {
      && !state.Live(cb)
      && (sen != null ==> !state.Live(sen))
      && (rec != null ==> !state.Live(rec))
    }

    /** `NewStateTransition`, with the coinbase's object. */
    constructor (e: Engine, state: State, tx: Tx, cb: StateObject)
      requires state.Ok() && state.Live(cb)
      ensures Valid() && Current() && sen == null && rec == null && gas == 0
      ensures this.e == e && this.state == state && this.tx == tx && this.cb == cb && coinbase == cb.address
      ensures reach == state.footprint
    {
      assert state.ObjectOk(cb.address);
      this.e, this.state, this.tx, this.coinbase := e, state, tx, cb.address;
      this.gas, this.cb, this.sen, this.rec := 0, cb, null, null;
      this.reach := state.footprint;
    }

    /** A write to an object that is held. */
    method Put(o: StateObject, op: Op)
      requires Valid() && Held(o)
      modifies `reach, state, reach
      ensures Valid() && Held(o) && fresh(reach - old(reach))
      ensures state.objects == old(state.objects)
      ensures state.world == if state.Live(o) then old(state.world)[o.address := Applied(op, old(state.world)[o.address])]
                             else old(state.world)
    {
      state.Change(o, op);
      reach := reach + state.footprint + {o.balance};
    }

    /** The object of an address, held from now on. */
    method Hold(a: Addr) returns (o: StateObject)
      requires Valid()
      modifies `reach, state
      ensures Valid() && Held(o) && o.address == a && state.Live(o) && fresh(reach - old(reach)) && reach >= old(reach)
      ensures state.world == Touch(old(state.world), a)
      ensures (old(Current()) ==> Current()) && (old(Replaced()) ==> Replaced())
    {
      o := state.GetOrNewStateObject(a);
      assert state.ObjectOk(a);
      reach := reach + state.footprint;
    }

    method ValidateTx() returns (error: Error)
      requires Valid() && Current()
      modifies `reach, state
      ensures Valid() && Current() && fresh(reach - old(reach)) && reach >= old(reach)
      ensures (state.world, error) == Validate(e, old(state.world), tx)
    {
      var w := state.ReadAll();
      if !Permits(e, w, tx) { return OtherError; }
      var max := MaxGas(e, w);
      if max.Some? && GasValue(tx) > max.value { return GasLimitTxError; }
      var sender := Hold(tx.sender);
      assert state.ObjectOk(tx.sender);
      return if sender.nonce != tx.nonce then NonceError else NoError;
    }

    method PayGas(amount: int)
      requires Valid() && Current() && sen != null && rec == null && tx.sender in state.world && coinbase in state.world
      modifies `reach, state, reach
      ensures Valid() && Current() && fresh(reach - old(reach))
      ensures state.world == Move(old(state.world), tx.sender, coinbase, amount)
    {
      MoveOrder(state.world, tx.sender, coinbase, amount);
      Put(cb, Add(amount));
      Put(sen, Add(-amount));
    }

    /** `Sender`: looked up once. */
    method Sender() returns (sender: StateObject)
      requires Valid() && Current() && rec == null
      modifies `reach, `sen, state
      ensures Valid() && Current() && fresh(reach - old(reach)) && reach >= old(reach)
      ensures sen != null && sender == sen && state.world == Touch(old(state.world), tx.sender)
    {
      if sen == null { sen := Hold(tx.sender); } else { assert state.ObjectOk(sen.address); }
      sender := sen;
    }

    method BuyGas() returns (error: Error)
      requires Valid() && Current() && sen == null && rec == null && gas == 0 && tx.sender in state.world
      modifies this, state, reach
      ensures Valid() && Current() && fresh(reach - old(reach))
      ensures (state.world, error) == GasBought(old(state.world), tx, coinbase)
      ensures error == NoError ==> gas == tx.gas && sen != null
      ensures error != NoError ==> gas == 0
      ensures rec == old(rec) && cb == old(cb)
    {
      var sender := Sender();
      assert state.world == old(state.world);
      assert state.ObjectOk(tx.sender) && state.ObjectOk(coinbase);
      if sender.balance.n < GasValue(tx) { return OtherError; }
      if cb.pool < tx.gas { return OtherError; }
      PayGas(GasValue(tx));
      gas := gas + tx.gas;
      return NoError;
    }

    method UseGas(amount: nat) returns (ok: bool)
      modifies `gas
      ensures ok == (old(gas) >= amount) && gas == if ok then old(gas) - amount else old(gas)
    {
      ok := gas >= amount;
      if ok { gas := gas - amount; }
    }

    /** The deferred `RefundGas`: on objects that the state has replaced it does nothing. */
    method RefundGas()
      requires Valid() && sen != null && tx.sender in state.world && coinbase in state.world && (Current() || Replaced())
      modifies `reach, state, reach
      ensures Valid() && fresh(reach - old(reach))
      ensures state.world == if old(Current()) then Refund(old(state.world), tx, coinbase, gas, MadeAt()) else old(state.world)
    {
      Put(cb, Return(gas, tx.price));
      Put(sen, Add(gas * tx.price));
    }

    /** The state goes back to a snapshot, and the objects held are no longer its own. */
    method Revert(snapshot: State)
      requires Valid() && snapshot.Ok() && snapshot != state && state !in snapshot.footprint
      requires snapshot.footprint !! reach && this !in snapshot.footprint
      modifies `reach, state
      ensures Valid() && Replaced() && state.world == old(snapshot.world)
      ensures reach == old(reach) + old(snapshot.footprint)
    {
      state.Set(snapshot);
      reach := reach + state.footprint;
      forall a | a in state.objects ensures state.objects[a] in state.footprint { assert state.ObjectOk(a); }
    }

    /** One write of the machine. */
    method WriteAt(x: Write, ghost current: bool)
      requires Valid() && (if current then Current() else Replaced())
      modifies `reach, state, reach
      ensures Valid() && (if current then Current() else Replaced()) && fresh(reach - old(reach))
      ensures state.world == WriteOne(old(state.world), x)
    {
      var o := Hold(x.addr);
      Put(o, x.op);
    }

    method WriteAll(ws: seq<Write>, ghost current: bool)
      requires Valid() && (if current then Current() else Replaced())
      modifies `reach, state, reach
      ensures Valid() && (if current then Current() else Replaced()) && fresh(reach - old(reach))
      ensures state.world == Written(old(state.world), ws)
    {
      ghost var w := state.world;
      for i := 0 to |ws|
        invariant Valid() && (if current then Current() else Replaced()) && fresh(reach - old(reach))
        invariant Written(w, ws) == Written(state.world, ws[i..])
      {
        assert ws[i..][0] == ws[i] && ws[i..][1..] == ws[i + 1..];
        WriteAt(ws[i], current);
      }
    }

    /** A revert within the run. */
    method Swap()
      requires Valid()
      modifies `reach, state
      ensures Valid() && Replaced() && state.world == old(state.world) && fresh(reach - old(reach)) && reach >= old(reach)
    {
      var copy := state.Copy();
      Revert(copy);
    }

    method SwapIf(swapped: bool)
      requires Valid() && Current()
      modifies `reach, state
      ensures Valid() && state.world == old(state.world) && fresh(reach - old(reach)) && reach >= old(reach)
      ensures if swapped then Replaced() else Current()
    {
      if swapped { Swap(); }
    }

    method Consult(at: Addr) returns (ran: Ran)
      requires Valid()
      ensures ran == RunOf(e, state.world, tx, at, gas)
    {
      var w := state.ReadAll();
      ran := RunOf(e, w, tx, at, gas);
    }

    /** `Eval`: the run of a contract. It may leave all objects replaced. */
    method Eval(at: Addr) returns (ran: Ran)
      requires Valid() && Current()
      modifies `reach, `gas, state, reach
      ensures Valid() && fresh(reach - old(reach))
      ensures ran == RunOf(e, old(state.world), tx, at, old(gas)) && gas == ran.gas
      ensures state.world == Written(old(state.world), ran.writes)
      ensures if ran.swapped then Replaced() else Current()
    {
      ran := Consult(at);
      PlayBack(ran);
      gas := ran.gas;
    }

    method PlayBack(ran: Ran)
      requires Valid() && Current()
      modifies `reach, state, reach
      ensures Valid() && fresh(reach - old(reach)) && state.world == Written(old(state.world), ran.writes)
      ensures if ran.swapped then Replaced() else Current()
    {
      SwapIf(ran.swapped);
      WriteAll(ran.writes, !ran.swapped);
    }

    /** The end of a run that did not fail, with the deferred refund. */
    method Conclude(ran: Ran, ghost made: Option<Addr>)
      requires Valid() && sen != null && gas == ran.gas && (if ran.swapped then Replaced() else Current())
      requires tx.sender in state.world && coinbase in state.world && (made.Some? ==> made.value in state.world)
      requires made == MadeAt()
      modifies `reach, state, reach
      ensures Valid() && fresh(reach - old(reach))
      ensures Outcome(state.world, gas, NoError) == Finish(old(state.world), tx, coinbase, ran, made)
    {
      if rec != null { Put(rec, SetCode(ran.output)); }
      RefundGas();
    }

    /** After a failure: the snapshot, and a refund that the state does not see. */
    method FallBack(snapshot: State)
      requires Valid() && sen != null && snapshot.Ok() && snapshot != state && state !in snapshot.footprint
      requires snapshot.footprint !! reach && this !in snapshot.footprint
      requires tx.sender in snapshot.world && coinbase in snapshot.world
      modifies `reach, state, reach, snapshot.footprint
      ensures Valid() && state.world == old(snapshot.world)
      ensures fresh(reach - old(reach) - old(snapshot.footprint))
    {
      Revert(snapshot);
      RefundGas();
    }

    /** A contract is run; if it fails the state goes back to the snapshot, and the deferred refund
        goes to the objects from before. */
    method RunFrom(at: Addr, snapshot: State, ghost made: Option<Addr>) returns (error: Error)
      requires Valid() && Current() && sen != null && (made.Some? ==> made.value in state.world)
      requires made == MadeAt()
      requires snapshot.Ok() && snapshot != state && state !in snapshot.footprint && snapshot !in reach
      requires snapshot.footprint !! reach && this !in snapshot.footprint
      requires tx.sender in snapshot.world && coinbase in snapshot.world
      requires tx.sender in state.world && coinbase in state.world
      modifies `reach, `gas, state, reach, snapshot.footprint
      ensures Valid() && fresh(reach - old(reach) - old(snapshot.footprint))
      ensures var ran := RunOf(e, old(state.world), tx, at, old(gas));
              Outcome(state.world, gas, error) == Ended(old(state.world), old(snapshot.world), tx, coinbase, ran, made)
    {
      ghost var w := state.world;
      var ran := Eval(at);
      if ran.failed {
        FallBack(snapshot);
        return OtherError;
      }
      WrittenKeeps(w, ran.writes, tx.sender);
      WrittenKeeps(w, ran.writes, coinbase);
      if made.Some? { WrittenKeeps(w, ran.writes, made.value); }
      Conclude(ran, made);
      return NoError;
    }

    /** A snapshot of the state as it is now. */
    method TakeSnapshot() returns (snapshot: State)
      requires Valid()
      ensures fresh(snapshot) && fresh(snapshot.footprint) && snapshot.Ok() && snapshot.world == state.world
      ensures snapshot.footprint !! reach && state !in snapshot.footprint && this !in snapshot.footprint
    {
      snapshot := state.Copy();
    }

    /** The new account of a creation. */
    method NewReceiver()
      requires Valid() && Current() && rec == null
      modifies `reach, `rec, state
      ensures Valid() && Current() && fresh(reach - old(reach)) && reach >= old(reach)
      ensures rec != null && rec.address == tx.created && state.world == old(state.world)[tx.created := EMPTY]
    {
      var contract := state.NewStateObject(tx.created);
      assert state.ObjectOk(tx.created);
      reach := reach + state.footprint;
      rec := contract;
    }

    method MakeContract()
      requires Valid() && Current() && rec == null
      modifies `reach, `rec, state, reach
      ensures Valid() && Current() && fresh(reach - old(reach)) && rec != null && rec.address == tx.created
      ensures state.world == Credit(old(state.world)[tx.created := EMPTY], tx.created, tx.value)
    {
      NewReceiver();
      assert state.Live(rec);
      Put(rec, Add(tx.value));
    }

    /** The value is taken from the sender, a snapshot is made, and the value is given to a new
        account: in this order. */
    method BeginCreation() returns (snapshot: State)
      requires Valid() && Current() && sen != null && rec == null
      requires tx.sender in state.world
      modifies `reach, `rec, state, reach
      ensures Valid() && Current() && fresh(reach - old(reach)) && rec != null && rec.address == tx.created
      ensures state.world == Made(old(state.world), tx) && snapshot.world == Paid(old(state.world), tx)
      ensures fresh(snapshot) && fresh(snapshot.footprint) && snapshot.Ok() && snapshot !in reach
      ensures snapshot.footprint !! reach && state !in snapshot.footprint && this !in snapshot.footprint
    {
      TakeValue();
      snapshot := TakeSnapshot();
      MakeContract();
      assert snapshot.Ok();
    }

    method TakeValue()
      requires Valid() && Current() && sen != null && rec == null && tx.sender in state.world
      modifies `reach, state, reach
      ensures Valid() && Current() && fresh(reach - old(reach)) && state.objects == old(state.objects)
      ensures state.world == Paid(old(state.world), tx)
    {
      assert state.Live(sen);
      Put(sen, Add(-tx.value));
    }

    /** The creation of a contract. */
    method CreateContract() returns (error: Error)
      requires Valid() && Current() && sen != null && rec == null
      requires tx.gas >= DataGas(tx) && gas == tx.gas - DataGas(tx)
      requires tx.sender in state.world && coinbase in state.world
      modifies `reach, `rec, `gas, state, reach
      ensures Valid() && fresh(reach - old(reach))
      ensures Outcome(state.world, gas, error) == Create(e, old(state.world), tx, coinbase)
    {
      var snapshot := BeginCreation();
      error := RunFrom(tx.created, snapshot, Some(tx.created));
    }

    /** The value is moved to the receiver before the snapshot is made. */
    method Send(to: Addr) returns (receiver: StateObject)
      requires Valid() && Current() && sen != null && rec == null && tx.sender in state.world
      modifies `reach, state, reach
      ensures Valid() && Current() && fresh(reach - old(reach))
      ensures receiver.address == to && state.Live(receiver) && state.world == Sent(old(state.world), tx, to)
    {
      receiver := Hold(to);
      TakeValue();
      GiveValue(receiver);
    }

    method GiveValue(receiver: StateObject)
      requires Valid() && Current() && state.Live(receiver) && receiver.address in state.world
      modifies `reach, state, reach
      ensures Valid() && Current() && fresh(reach - old(reach)) && state.objects == old(state.objects)
      ensures state.world == Credit(old(state.world), receiver.address, tx.value)
    {
      assert state.ObjectOk(receiver.address);
      Put(receiver, Add(tx.value));
    }

    /** A message to an account, and the run of its code if there is any. */
    method CallAccount(to: Addr) returns (error: Error)
      requires Valid() && Current() && sen != null && rec == null
      requires tx.gas >= DataGas(tx) && gas == tx.gas - DataGas(tx)
      requires tx.sender in state.world && coinbase in state.world
      modifies `reach, `gas, state, reach
      ensures Valid() && fresh(reach - old(reach))
      ensures Outcome(state.world, gas, error) == Call(e, old(state.world), tx, coinbase, to)
    {
      var receiver := Send(to);
      assert state.ObjectOk(to);
      if receiver.code == [] {
        Conclude(Ran(false, false, [], gas, []), None);
        return NoError;
      }
      error := CallCode(to);
    }

    method CallCode(to: Addr) returns (error: Error)
      requires Valid() && Current() && sen != null && rec == null
      requires tx.sender in state.world && coinbase in state.world
      modifies `reach, `gas, state, reach
      ensures Valid() && fresh(reach - old(reach))
      ensures var w := old(state.world);
              Outcome(state.world, gas, error) == Ended(w, w, tx, coinbase, RunOf(e, w, tx, to, old(gas)), None)
    {
      var snapshot := TakeSnapshot();
      error := RunFrom(to, snapshot, None);
    }

    method PreCheckTx() returns (error: Error)
      requires Valid() && Current() && sen == null && rec == null && gas == 0 && coinbase in state.world
      modifies this, state, reach
      ensures Valid() && Current() && fresh(reach - old(reach)) && rec == null && coinbase in state.world
      ensures (state.world, error) == PreCheck(e, old(state.world), tx, coinbase)
      ensures error == NoError ==> gas == tx.gas && sen != null
      ensures error != NoError ==> gas == 0
    {
      error := ValidateTx();
      if error == NoError { error := BuyGas(); }
    }

    /** Everything after the gas is bought, for the nonce already increased. */
    method SpendGas() returns (error: Error)
      requires Valid() && Current() && sen != null && rec == null && gas == tx.gas
      requires tx.sender in state.world && coinbase in state.world
      modifies `reach, `rec, `gas, state, reach
      ensures Valid() && fresh(reach - old(reach))
      ensures Outcome(state.world, gas, error) == Spend(e, old(state.world), tx, coinbase)
    {
      var paid := PayForData();
      if !paid {
        RefundGas();
        return OtherError;
      }
      assert state.ObjectOk(tx.sender);
      if sen.balance.n < tx.value {
        RefundGas();
        return OtherError;
      }
      error := Transact();
    }

    method PayForData() returns (paid: bool)
      requires gas == tx.gas
      modifies `gas
      ensures paid == (tx.gas >= DataGas(tx))
      ensures gas == if paid then tx.gas - DataGas(tx) else if tx.gas < GAS_TX then tx.gas else tx.gas - GAS_TX
    {
      paid := UseGas(GAS_TX);
      if paid { paid := UseGas(|tx.data| * GAS_DATA); }
    }

    method Transact() returns (error: Error)
      requires Valid() && Current() && sen != null && rec == null
      requires tx.gas >= DataGas(tx) && gas == tx.gas - DataGas(tx)
      requires tx.sender in state.world && coinbase in state.world
      modifies `reach, `rec, `gas, state, reach
      ensures Valid() && fresh(reach - old(reach))
      ensures Outcome(state.world, gas, error) ==
              if tx.to == None then Create(e, old(state.world), tx, coinbase)
              else Call(e, old(state.world), tx, coinbase, tx.to.value)
    {
      if tx.to == None {
        error := CreateContract();
      } else {
        error := CallAccount(tx.to.value);
      }
    }

    method IncreaseNonce()
      requires Valid() && Current() && sen != null && rec == null && tx.sender in state.world
      modifies `reach, state, reach
      ensures Valid() && Current() && fresh(reach - old(reach)) && state.world == NextNonce(old(state.world), tx.sender)
    {
      assert state.ObjectOk(tx.sender);
      Put(sen, SetNonce((sen.nonce + 1) % TWO64));
    }

    /** `TransitionState`. */
    method TransitionState() returns (error: Error)
      requires Valid() && Current() && sen == null && rec == null && gas == 0 && coinbase in state.world
      modifies this, state, reach
      ensures Valid() && fresh(reach - old(reach))
      ensures Outcome(state.world, gas, error) == Transit(e, old(state.world), tx, coinbase)
    {
      error := PreCheckTx();
      if error != NoError { return; }
      IncreaseNonce();
      error := SpendGas();
    }
  }
}
