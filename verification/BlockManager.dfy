/** `ProcessTransactions` and `AccumelateRewards` of `monkchain/block_manager.go` as they work on a
    state: the loops do what the functions of `Blocks` say. */
module BlockManager {
  import opened World
  import opened State
  import opened Transition
  import opened Blocks

  /** A result with what came before. */
  function After(rs: seq<Receipt>, hs: seq<Tx>, r: Option<Result>): Option<Result> {
    match r
    case None => None
    case Some(r) => Some(Result(r.world, rs + r.receipts, hs + r.handled, r.used))
  }

  lemma {:induction false} AfterWith(rs: seq<Receipt>, hs: seq<Tx>, receipt: Receipt, r: Option<Result>)
    ensures After(rs, hs, With(receipt, r)) == After(rs + [receipt], hs + [receipt.tx], r)
  {
    if r.Some? {
      assert rs + ([receipt] + r.value.receipts) == (rs + [receipt]) + r.value.receipts;
      assert hs + ([receipt.tx] + r.value.handled) == (hs + [receipt.tx]) + r.value.handled;
    }
  }

  /** One transaction, and the state's update after it unless it is dropped. */
  method Handle(e: Engine, state: State, job: Job, cb: Addr) returns (error: Error, gas: nat)
    requires state.Ok() && cb in state.world
    modifies state, state.footprint
    ensures state.Ok() && fresh(state.footprint - old(state.footprint)) && cb in state.world
    ensures Outcome(state.world, gas, error) == Do(TransitBy(e, cb), old(state.world), job)
    ensures !Dropped(Outcome(state.world, gas, error)) ==> state.trie == Records(state.world)
  {
    TransitKeeps(e, state.world, job.tx, cb, cb);
    error, gas := Run(e, state, job.tx, cb);
    if error != NonceError && error != GasLimitTxError { state.Update(job.plans); }
  }

  method Run(e: Engine, state: State, tx: Tx, cb: Addr) returns (error: Error, gas: nat)
    requires state.Ok() && cb in state.world
    modifies state, state.footprint
    ensures state.Ok() && fresh(state.footprint - old(state.footprint))
    ensures Outcome(state.world, gas, error) == Transit(e, old(state.world), tx, cb)
  {
    var o := state.GetStateObject(cb);
    var st := new StateTransition(e, state, tx, o);
    error := st.TransitionState();
    gas := st.gas;
  }

  /** What is left to compare with, from the i-th transaction on. */
  function Left(expected: seq<Receipt>, i: nat): seq<Receipt> {
    if i <= |expected| then expected[i..] else []
  }

  /** What the loop has so far. */
  datatype Progress = Progress(receipts: seq<Receipt>, handled: seq<Tx>, used: int)

  /** One turn of the loop after a transaction; nothing comes back if its receipt is not the
      one expected. */
  function Advance(p: Progress, tx: Tx, post: map<Addr, Record>, gas: nat, error: Error, expected: seq<Receipt>, i: nat)
    : Option<Progress>
  {
    if error == NonceError || error == GasLimitTxError then Some(p)
    else
      var receipt := Receipt(tx, post, p.used + tx.gas - gas);
      if i < |expected| && expected[i].post != receipt.post then None
      else Some(Progress(p.receipts + [receipt], p.handled + [tx], receipt.cumulative))
  }

  /** Halfway through: the result is what there is so far and what the rest gives. */
  ghost predicate Halfway(m: Machine, whole: Option<Result>, w: World, jobs: seq<Job>, expected: seq<Receipt>, i: nat,
                          p: Progress)
  {
    i <= |jobs| && whole == After(p.receipts, p.handled, Process(m, w, jobs[i..], Left(expected, i), p.used))
  }

  lemma {:induction false} Onwards(m: Machine, whole: Option<Result>, w: World, jobs: seq<Job>, expected: seq<Receipt>, i: nat,
                                   p: Progress, post: map<Addr, Record>, o: Outcome)
    requires i < |jobs| && Halfway(m, whole, w, jobs, expected, i, p)
    requires o == Do(m, w, jobs[i]) && (!Dropped(o) ==> post == Records(o.world))
    ensures var next := Advance(p, jobs[i].tx, post, o.gas, o.error, expected, i);
            if next.Some? then Halfway(m, whole, o.world, jobs, expected, i + 1, next.value) else whole == None
  {
    var rest := jobs[i..];
    assert rest[0] == jobs[i] && rest[1..] == jobs[i + 1..];
    assert Rest(Left(expected, i)) == Left(expected, i + 1);
    var receipt := ReceiptOf(jobs[i].tx, o, p.used);
    AfterWith(p.receipts, p.handled, receipt, Process(m, o.world, jobs[i + 1..], Left(expected, i + 1), receipt.cumulative));
  }

  lemma {:induction false} HalfwayStart(m: Machine, w: World, jobs: seq<Job>, expected: seq<Receipt>)
    ensures Halfway(m, Process(m, w, jobs, expected, 0), w, jobs, expected, 0, Progress([], [], 0))
  {
    assert jobs[0..] == jobs && Left(expected, 0) == expected;
    var r := Process(m, w, jobs, expected, 0);
    if r.Some? { assert [] + r.value.receipts == r.value.receipts && [] + r.value.handled == r.value.handled; }
  }

  lemma {:induction false} AllDone(m: Machine, whole: Option<Result>, w: World, jobs: seq<Job>, expected: seq<Receipt>, p: Progress)
    requires Halfway(m, whole, w, jobs, expected, |jobs|, p)
    ensures whole == Some(Result(w, p.receipts, p.handled, p.used))
  {
    assert p.receipts + [] == p.receipts && p.handled + [] == p.handled;
  }

  method HandleNext(e: Engine, state: State, cb: Addr, jobs: seq<Job>, expected: seq<Receipt>, i: nat, p: Progress,
                    ghost whole: Option<Result>) returns (next: Option<Progress>)
    requires state.Ok() && cb in state.world && i < |jobs|
    requires Halfway(TransitBy(e, cb), whole, state.world, jobs, expected, i, p)
    modifies state, state.footprint
    ensures state.Ok() && cb in state.world && fresh(state.footprint - old(state.footprint))
    ensures if next.Some? then Halfway(TransitBy(e, cb), whole, state.world, jobs, expected, i + 1, next.value) else whole == None
  {
    ghost var w := state.world;
    var error, gas := Handle(e, state, jobs[i], cb);
    next := Advance(p, jobs[i].tx, state.trie, gas, error, expected, i);
    Onwards(TransitBy(e, cb), whole, w, jobs, expected, i, p, state.trie, Outcome(state.world, gas, error));
  }

  /** `ProcessTransactions`. */
  method ProcessTransactions(e: Engine, state: State, cb: Addr, jobs: seq<Job>, expected: seq<Receipt>) returns (done: Option<Progress>)
    requires state.Ok() && cb in state.world
    modifies state, state.footprint
    ensures state.Ok() && cb in state.world && fresh(state.footprint - old(state.footprint))
    ensures var r := Process(TransitBy(e, cb), old(state.world), jobs, expected, 0);
            if done.Some? then r == Some(Result(state.world, done.value.receipts, done.value.handled, done.value.used))
            else r == None
  {
    HalfwayStart(TransitBy(e, cb), state.world, jobs, expected);
    ghost var whole := Process(TransitBy(e, cb), state.world, jobs, expected, 0);
    done := HandleAll(e, state, cb, jobs, expected, whole);
    if done.Some? { AllDone(TransitBy(e, cb), whole, state.world, jobs, expected, done.value); }
  }

  method HandleAll(e: Engine, state: State, cb: Addr, jobs: seq<Job>, expected: seq<Receipt>, ghost whole: Option<Result>)
    returns (done: Option<Progress>)
    requires state.Ok() && cb in state.world
    requires Halfway(TransitBy(e, cb), whole, state.world, jobs, expected, 0, Progress([], [], 0))
    modifies state, state.footprint
    ensures state.Ok() && cb in state.world && fresh(state.footprint - old(state.footprint))
    ensures if done.Some? then Halfway(TransitBy(e, cb), whole, state.world, jobs, expected, |jobs|, done.value) else whole == None
  {
    ghost var m := TransitBy(e, cb);
    done := Some(Progress([], [], 0));
    var i := 0;
    while i < |jobs| && done.Some?
      invariant i <= |jobs| && state.Ok() && cb in state.world && fresh(state.footprint - old(state.footprint))
      invariant if done.Some? then Halfway(m, whole, state.world, jobs, expected, i, done.value) else whole == None
    {
      done := HandleNext(e, state, cb, jobs, expected, i, done.value, whole);
      i := i + 1;
    }
  }

  /** An amount for the account of an address. */
  method Pay(state: State, a: Addr, amount: int)
    requires state.Ok()
    modifies state, state.footprint
    ensures state.Ok() && fresh(state.footprint - old(state.footprint))
    ensures state.world == Credit(Touch(old(state.world), a), a, amount)
  {
    var account := state.GetOrNewStateObject(a);
    assert state.ObjectOk(a);
    state.Change(account, Add(amount));
  }

  /** `AccumelateRewards`. */
  method AccumelateRewards(state: State, cb: Addr, uncles: seq<Uncle>, nonce: nat, parent: Parent) returns (ok: bool)
    requires state.Ok()
    modifies state, state.footprint
    ensures state.Ok() && fresh(state.footprint - old(state.footprint))
    ensures ok == Reward(old(state.world), cb, uncles, nonce, parent).Some?
    ensures state.world == Rewarded(old(state.world), cb, uncles, nonce, parent)
  {
    var reward := BLOCK_REWARD;
    var nonces := {nonce};
    ghost var w := state.world;
    for i := 0 to |uncles|
      invariant state.Ok() && fresh(state.footprint - old(state.footprint))
      invariant reward == BLOCK_REWARD + i * (BLOCK_REWARD / 32)
      invariant RewardUncles(w, uncles, {nonce}, parent) == RewardUncles(state.world, uncles[i..], nonces, parent)
      invariant PaidUncles(w, uncles, {nonce}, parent) == PaidUncles(state.world, uncles[i..], nonces, parent)
    {
      var u := uncles[i];
      assert uncles[i..][0] == u && uncles[i..][1..] == uncles[i + 1..];
      if !UncleOk(u, nonces, parent) { return false; }
      nonces := nonces + {u.nonce};
      Pay(state, u.coinbase, BLOCK_REWARD * 15 / 16);
      reward := reward + BLOCK_REWARD / 32;
    }
    Pay(state, cb, reward);
    return true;
  }

  /** `ProcessWithParent`, from `ApplyDiff` to the comparison of the state roots. */
  method ProcessWithParent(e: Engine, state: State, b: Block, jobs: seq<Job>, last: Plans, parent: Parent) returns (ok: bool)
    requires state.Ok() && Txs(jobs) == b.txs
    modifies state, state.footprint
    ensures state.Ok()
    ensures ok == Check(e, old(state.world), b, jobs, last, parent).Some?
    ensures ok ==> Check(e, old(state.world), b, jobs, last, parent) == Some(state.world) && state.trie == b.root
  {
    OpenBlock(state, b.coinbase);
    var done := ProcessTransactions(e, state, b.coinbase, jobs, b.receipts);
    if done == None || done.value.receipts != b.receipts { return false; }
    ok := CloseBlock(state, b, last, parent);
    if !ok { return false; }
    return state.trie == b.root;
  }

  method CloseBlock(state: State, b: Block, last: Plans, parent: Parent) returns (ok: bool)
    requires state.Ok()
    modifies state, state.footprint
    ensures state.Ok()
    ensures var r := Close(old(state.world), b.coinbase, b.uncles, b.nonce, parent, last);
            if ok then r == Some(state.world) && state.trie == Records(state.world) else r == None
  {
    ok := AccumelateRewards(state, b.coinbase, b.uncles, b.nonce, parent);
    if ok { state.Update(last); }
  }

  /** The start of `ApplyDiff`. */
  method OpenBlock(state: State, cb: Addr)
    requires state.Ok()
    modifies state, state.footprint
    ensures state.Ok() && fresh(state.footprint - old(state.footprint)) && state.world == Opened(old(state.world), cb)
  {
    var coinbase := state.GetOrNewStateObject(cb);
    assert state.ObjectOk(cb);
    state.Change(coinbase, SetPool(GAS_LIMIT));
  }
}
