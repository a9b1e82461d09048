/** `monkchain/block_manager.go`: the transactions of a block and their receipts, as functions of
    the accounts. */
module Blocks {
  import opened Storage
  import opened World
  import opened State

  /** A transaction, and how storage is written to the tries after it. */
  datatype Job = Job(tx: Tx, plans: Plans)

  /** What a job does to a world. */
  type Machine = (World, Job) -> Outcome

  function Do(m: Machine, w: World, job: Job): Outcome {
    m(w, job)
  }

  /** Transactions in a block of the coinbase `cb`; the state is updated after each one that is
      not dropped. */
  function TransitBy(e: Engine, cb: Addr): Machine {
    (w: World, job: Job) => if cb in w then TransitAndUpdate(e, w, job, cb) else Outcome(w, 0, OtherError)
  }

  function TransitAndUpdate(e: Engine, w: World, job: Job, cb: Addr): Outcome
    requires cb in w
  {
    var o := Transit(e, w, job.tx, cb);
    if Dropped(o) then o else o.(world := Updated(o.world, job.plans))
  }

  /** `post` is what the state root commits to. */
  datatype Receipt = Receipt(tx: Tx, post: map<Addr, Record>, cumulative: int)

  datatype Result = Result(world: World, receipts: seq<Receipt>, handled: seq<Tx>, used: int)

  /** A transaction that is dropped without a receipt. An empty gas pool is not among the
      reasons: its error is of another type than the one looked for. */
  predicate Dropped(o: Outcome) {
    o.error == NonceError || o.error == GasLimitTxError
  }

  function Rest<T>(s: seq<T>): seq<T> {
    if s == [] then [] else s[1..]
  }

  function ReceiptOf(tx: Tx, o: Outcome, used: int): Receipt {
    Receipt(tx, Records(o.world), used + tx.gas - o.gas)
  }

  /** `Receipt.Cmp` looks at the state only. */
  predicate Differs(expected: seq<Receipt>, receipt: Receipt) {
    expected != [] && expected[0].post != receipt.post
  }

  /** `ProcessTransactions`. The receipts of a block that is checked are compared at the same
      place in the list of transactions; nothing comes back if one differs. */
  function Process(m: Machine, w: World, jobs: seq<Job>, expected: seq<Receipt>, used: int): Option<Result>
    decreases |jobs|
  {
    if jobs == [] then Some(Result(w, [], [], used))
    else
      var o := Do(m, w, jobs[0]);
      var receipt := ReceiptOf(jobs[0].tx, o, used);
      if Dropped(o) then Process(m, o.world, jobs[1..], Rest(expected), used)
      else if Differs(expected, receipt) then None
      else With(receipt, Process(m, o.world, jobs[1..], Rest(expected), receipt.cumulative))
  }

  function With(receipt: Receipt, r: Option<Result>): Option<Result> {
    match r
    case None => None
    case Some(r) => Some(Result(r.world, [receipt] + r.receipts, [receipt.tx] + r.handled, r.used))
  }

  // ---- Receipts --------------------------------------------------------------------------------

  /** The gas used by each transaction that is not dropped. */
  function Uses(m: Machine, w: World, jobs: seq<Job>): seq<int>
    decreases |jobs|
  {
    if jobs == [] then []
    else
      var o := Do(m, w, jobs[0]);
      (if Dropped(o) then [] else [jobs[0].tx.gas - o.gas]) + Uses(m, o.world, jobs[1..])
  }

  function Sum(ns: seq<int>): int {
    if ns == [] then 0 else ns[0] + Sum(ns[1..])
  }

  /** The cumulative gas of a receipt is the running sum, and the transactions of the receipts are
      the ones handled. */
  ghost predicate Accounted(r: Result, us: seq<int>, used: int) {
    && |r.receipts| == |r.handled| == |us|
    && r.used == used + Sum(us)
    && forall k | 0 <= k < |us| :: AccountedAt(r, us, used, k)
  }

  ghost predicate AccountedAt(r: Result, us: seq<int>, used: int, k: nat)
    requires |r.receipts| == |r.handled| == |us| && k < |us|
  {
    r.receipts[k].cumulative == used + Sum(us[..k + 1]) && r.receipts[k].tx == r.handled[k]
  }

  lemma {:induction false} CumulativeGas(m: Machine, w: World, jobs: seq<Job>, expected: seq<Receipt>, used: int)
    requires Process(m, w, jobs, expected, used).Some?
    ensures Accounted(Process(m, w, jobs, expected, used).value, Uses(m, w, jobs), used)
    decreases |jobs|
  {
    if jobs != [] {
      var o := Do(m, w, jobs[0]);
      var us := Uses(m, o.world, jobs[1..]);
      if Dropped(o) {
        CumulativeGas(m, o.world, jobs[1..], Rest(expected), used);
        assert [] + us == us;
      } else {
        var receipt := ReceiptOf(jobs[0].tx, o, used);
        CumulativeGas(m, o.world, jobs[1..], Rest(expected), receipt.cumulative);
        var r := Process(m, o.world, jobs[1..], Rest(expected), receipt.cumulative);
        OneMore(receipt, r.value, jobs[0].tx.gas - o.gas, us, used);
      }
    }
  }

  lemma {:induction false} OneMore(receipt: Receipt, r: Result, u: int, us: seq<int>, used: int)
    requires receipt.cumulative == used + u && Accounted(r, us, used + u)
    ensures Accounted(With(receipt, Some(r)).value, [u] + us, used)
  {
    var r', us' := With(receipt, Some(r)).value, [u] + us;
    assert us'[1..] == us;
    forall k | 0 <= k < |us'| ensures AccountedAt(r', us', used, k) {
      SumStep(us', k);
      if k > 0 { assert AccountedAt(r, us, used + u, k - 1); }
    }
  }

  lemma {:induction false} SumStep(us: seq<int>, k: nat)
    requires k < |us|
    ensures Sum(us[..k + 1]) == us[0] + (if k == 0 then 0 else Sum(us[1..][..k]))
  {
    assert us[..k + 1][1..] == us[1..][..k];
  }

  // ---- Miner and validator ---------------------------------------------------------------------

  function Txs(jobs: seq<Job>): (txs: seq<Tx>)
    ensures |txs| == |jobs| && forall i | 0 <= i < |jobs| :: txs[i] == jobs[i].tx
  {
    seq(|jobs|, i requires 0 <= i < |jobs| => jobs[i].tx)
  }

  /** Transactions that are dropped leave the world as it is. */
  ghost predicate DropsNothing(m: Machine, w: World, jobs: seq<Job>)
    decreases |jobs|
  {
    jobs == [] ||
    (var o := Do(m, w, jobs[0]);
     (Dropped(o) ==> o.world == w) && DropsNothing(m, o.world, jobs[1..]))
  }

  /** After no transaction does a delete in a storage trie lose anything. */
  ghost predicate CalmRun(e: Engine, cb: Addr, w: World, jobs: seq<Job>)
    decreases |jobs|
  {
    jobs == [] ||
    (&& cb in w
     && (var o := Transit(e, w, jobs[0].tx, cb); Dropped(o) || CalmPlans(o.world, jobs[0].plans))
     && CalmRun(e, cb, Do(TransitBy(e, cb), w, jobs[0]).world, jobs[1..]))
  }

  /** Without receipts to compare with there is always a result. */
  lemma {:induction false} NoComparison(m: Machine, w: World, jobs: seq<Job>, used: int)
    ensures Process(m, w, jobs, [], used).Some?
    decreases |jobs|
  {
    if jobs != [] {
      var o := Do(m, w, jobs[0]);
      NoComparison(m, o.world, jobs[1..], if Dropped(o) then used else ReceiptOf(jobs[0].tx, o, used).cumulative);
    }
  }

  /** What the miner put in a block, the validator finds again: run from the same state, the
      handled transactions give the receipts of the block and the same end, and none is dropped,
      in whatever order either writes the storage, as long as no delete loses a slot. */
  lemma {:induction false} Replay(e: Engine, cb: Addr, w: World, jobs: seq<Job>, again: seq<Job>, used: int)
    requires CalmRun(e, cb, w, jobs) && DropsNothing(TransitBy(e, cb), w, jobs) && CalmRun(e, cb, w, again)
    requires var r := Process(TransitBy(e, cb), w, jobs, [], used); r.Some? && Txs(again) == r.value.handled
    ensures var r := Process(TransitBy(e, cb), w, jobs, [], used);
            Process(TransitBy(e, cb), w, again, r.value.receipts, used) == r
    decreases |jobs|
  {
    var m := TransitBy(e, cb);
    if jobs != [] {
      var o := Do(m, w, jobs[0]);
      if Dropped(o) {
        Replay(e, cb, w, jobs[1..], again, used);
      } else {
        var receipt := ReceiptOf(jobs[0].tx, o, used);
        var r := Process(m, o.world, jobs[1..], [], receipt.cumulative).value;
        assert Txs(again)[0] == jobs[0].tx && Txs(again[1..]) == Txs(again)[1..] == r.handled;
        SameJob(e, cb, w, jobs[0], again[0]);
        Replay(e, cb, o.world, jobs[1..], again[1..], receipt.cumulative);
        ReplayOne(m, w, again, receipt, r, used);
      }
    }
  }

  /** If neither loses anything, two ways to update come to the same. */
  lemma {:induction false} SameJob(e: Engine, cb: Addr, w: World, a: Job, b: Job)
    requires cb in w && a.tx == b.tx
    requires var o := Transit(e, w, a.tx, cb); Dropped(o) || (CalmPlans(o.world, a.plans) && CalmPlans(o.world, b.plans))
    ensures Do(TransitBy(e, cb), w, a) == Do(TransitBy(e, cb), w, b)
  {
    var o := Transit(e, w, a.tx, cb);
    if !Dropped(o) {
      CalmUpdated(o.world, a.plans);
      CalmUpdated(o.world, b.plans);
    }
  }

  lemma {:induction false} ReplayOne(m: Machine, w: World, again: seq<Job>, receipt: Receipt, r: Result, used: int)
    requires again != []
    requires var o := Do(m, w, again[0]);
             && !Dropped(o) && receipt == ReceiptOf(again[0].tx, o, used)
             && Process(m, o.world, again[1..], r.receipts, receipt.cumulative) == Some(r)
    ensures var all := With(receipt, Some(r)).value;
            Process(m, w, again, all.receipts, used) == Some(all)
  {
    var all := With(receipt, Some(r)).value;
    assert Rest(all.receipts) == r.receipts;
  }

  /** A dropped transaction leaves the world as it is unless its nonce is looked at and its sender
      has no account: then they get an empty one. */
  lemma {:induction false} DropSeen(e: Engine, w: World, tx: Tx, cb: Addr)
    requires cb in w && Dropped(Transit(e, w, tx, cb))
    ensures Transit(e, w, tx, cb).world == w <==>
            tx.sender in w || (MaxGas(e, w).Some? && GasValue(tx) > MaxGas(e, w).value)
  {
    var (w', error) := PreCheck(e, w, tx, cb);
    if error == NoError { assert false by { SpendErrors(e, NextNonce(w', tx.sender), tx, cb); } }
  }

  lemma {:induction false} SpendErrors(e: Engine, w: World, tx: Tx, cb: Addr)
    requires tx.sender in w && cb in w
    ensures !Dropped(Spend(e, w, tx, cb))
  {
  }

  /** Accounts never go away. */
  lemma {:induction false} TransitKeeps(e: Engine, w: World, tx: Tx, cb: Addr, a: Addr)
    requires cb in w && a in w
    ensures a in Transit(e, w, tx, cb).world
  {
    var (w', error) := PreCheck(e, w, tx, cb);
    if error == NoError { SpendKeeps(e, NextNonce(w', tx.sender), tx, cb, a); }
  }

  lemma {:induction false} SpendKeeps(e: Engine, w: World, tx: Tx, cb: Addr, a: Addr)
    requires tx.sender in w && cb in w && a in w
    ensures a in Spend(e, w, tx, cb).world
  {
    if tx.gas >= DataGas(tx) && w[tx.sender].balance >= tx.value {
      if tx.to == None {
        var ran := RunOf(e, Made(w, tx), tx, tx.created, tx.gas - DataGas(tx));
        WrittenKeeps(Made(w, tx), ran.writes, a);
      } else {
        var sent := Sent(w, tx, tx.to.value);
        var ran := RunOf(e, sent, tx, tx.to.value, tx.gas - DataGas(tx));
        WrittenKeeps(sent, ran.writes, a);
      }
    }
  }

  predicate SendersKnown(w: World, jobs: seq<Job>) {
    forall i | 0 <= i < |jobs| :: jobs[i].tx.sender in w
  }

  lemma {:induction false} KnownDropNothing(e: Engine, w: World, jobs: seq<Job>, cb: Addr)
    requires cb in w && SendersKnown(w, jobs)
    ensures DropsNothing(TransitBy(e, cb), w, jobs)
    decreases |jobs|
  {
    if jobs != [] {
      var o := Transit(e, w, jobs[0].tx, cb);
      var w' := Do(TransitBy(e, cb), w, jobs[0]).world;
      if Dropped(o) { DropSeen(e, w, jobs[0].tx, cb); }
      TransitKeeps(e, w, jobs[0].tx, cb, cb);
      forall i | 0 <= i < |jobs[1..]| ensures jobs[1..][i].tx.sender in w' {
        TransitKeeps(e, w, jobs[0].tx, cb, jobs[i + 1].tx.sender);
      }
      KnownDropNothing(e, w', jobs[1..], cb);
    }
  }

  // ---- Supply ----------------------------------------------------------------------------------

  /** What all the transactions lose. */
  function Losses(e: Engine, w: World, jobs: seq<Job>, cb: Addr): int
    decreases |jobs|
  {
    if jobs == [] || cb !in w then 0
    else Lost(e, w, jobs[0].tx, cb) + Losses(e, Do(TransitBy(e, cb), w, jobs[0]).world, jobs[1..], cb)
  }

  predicate AllProper(w: World, jobs: seq<Job>, cb: Addr, n: nat) {
    forall i | 0 <= i < |jobs| :: Proper(w, jobs[i].tx, cb, n)
  }

  lemma {:induction false} JobSupply(e: Engine, w: World, job: Job, cb: Addr, n: nat)
    requires Fair(e, n) && Proper(w, job.tx, cb, n)
    ensures var w' := Do(TransitBy(e, cb), w, job).world;
            cb in w' && Supply(w', n) == Supply(w, n) - Lost(e, w, job.tx, cb)
  {
    TransitSupply(e, w, job.tx, cb, n);
    TransitKeeps(e, w, job.tx, cb, cb);
    UpdatedSupply(Transit(e, w, job.tx, cb).world, job.plans, n);
  }

  lemma {:induction false} ProcessSupply(e: Engine, w: World, jobs: seq<Job>, cb: Addr, expected: seq<Receipt>, used: int, n: nat)
    requires Fair(e, n) && cb in w && AllProper(w, jobs, cb, n)
    ensures var r := Process(TransitBy(e, cb), w, jobs, expected, used);
            r.Some? ==> cb in r.value.world && Supply(r.value.world, n) == Supply(w, n) - Losses(e, w, jobs, cb)
    decreases |jobs|
  {
    if jobs != [] {
      var o := Do(TransitBy(e, cb), w, jobs[0]);
      JobSupply(e, w, jobs[0], cb, n);
      ProcessSupply(e, o.world, jobs[1..], cb, Rest(expected),
                    if Dropped(o) then used else ReceiptOf(jobs[0].tx, o, used).cumulative, n);
    }
  }

  // ---- Rewards ---------------------------------------------------------------------------------

  const BLOCK_REWARD: int := 1_500_000_000_000_000_000

  /** `parent` is the number of the uncle's parent, if that is known. */
  datatype Uncle = Uncle(coinbase: Addr, nonce: nat, hash: nat, parent: Option<int>)

  /** The parent block of the one that is rewarded. */
  datatype Parent = Parent(number: int, uncles: set<nat>)

  predicate UncleOk(u: Uncle, nonces: set<nat>, parent: Parent) {
    && u.nonce !in nonces
    && u.parent.Some? && u.parent.value >= parent.number - 6
    && u.hash !in parent.uncles
  }

  /** `AccumelateRewards`: nothing comes back after an uncle that is not allowed. */
  function RewardUncles(w: World, uncles: seq<Uncle>, nonces: set<nat>, parent: Parent): Option<World>
    decreases |uncles|
  {
    if uncles == [] then Some(w)
    else
      var u := uncles[0];
      if !UncleOk(u, nonces, parent) then None
      else RewardUncles(Credit(Touch(w, u.coinbase), u.coinbase, BLOCK_REWARD * 15 / 16), uncles[1..], nonces + {u.nonce}, parent)
  }

  /** The nonces matter for what is allowed and not for what is paid. */
  lemma {:induction false} OtherNonces(w: World, uncles: seq<Uncle>, nonces: set<nat>, nonces': set<nat>, parent: Parent)
    requires RewardUncles(w, uncles, nonces, parent).Some?
    requires forall i | 0 <= i < |uncles| :: uncles[i].nonce in nonces' ==> uncles[i].nonce in nonces
    ensures RewardUncles(w, uncles, nonces', parent) == RewardUncles(w, uncles, nonces, parent)
    decreases |uncles|
  {
    if uncles != [] {
      var u := uncles[0];
      OtherNonces(Credit(Touch(w, u.coinbase), u.coinbase, BLOCK_REWARD * 15 / 16), uncles[1..],
                  nonces + {u.nonce}, nonces' + {u.nonce}, parent);
    }
  }

  function Reward(w: World, cb: Addr, uncles: seq<Uncle>, nonce: nat, parent: Parent): Option<World> {
    match RewardUncles(w, uncles, {nonce}, parent)
    case None => None
    case Some(w') => Some(Credit(Touch(w', cb), cb, BLOCK_REWARD + |uncles| * (BLOCK_REWARD / 32)))
  }

  /** What is paid to the uncles before the first that is not allowed. */
  function PaidUncles(w: World, uncles: seq<Uncle>, nonces: set<nat>, parent: Parent): World
    decreases |uncles|
  {
    if uncles == [] || !UncleOk(uncles[0], nonces, parent) then w
    else
      var u := uncles[0];
      PaidUncles(Credit(Touch(w, u.coinbase), u.coinbase, BLOCK_REWARD * 15 / 16), uncles[1..], nonces + {u.nonce}, parent)
  }

  /** The accounts after `AccumelateRewards`, whether it fails or not. */
  function Rewarded(w: World, cb: Addr, uncles: seq<Uncle>, nonce: nat, parent: Parent): World {
    match Reward(w, cb, uncles, nonce, parent)
    case None => PaidUncles(w, uncles, {nonce}, parent)
    case Some(w') => w'
  }

  /** Whether the uncles are allowed does not depend on the accounts. */
  lemma {:induction false} UnclesAllowed(w: World, w': World, uncles: seq<Uncle>, nonces: set<nat>, parent: Parent)
    ensures RewardUncles(w, uncles, nonces, parent).Some? <==> RewardUncles(w', uncles, nonces, parent).Some?
    decreases |uncles|
  {
    if uncles != [] && UncleOk(uncles[0], nonces, parent) {
      var u := uncles[0];
      UnclesAllowed(Credit(Touch(w, u.coinbase), u.coinbase, BLOCK_REWARD * 15 / 16),
                    Credit(Touch(w', u.coinbase), u.coinbase, BLOCK_REWARD * 15 / 16), uncles[1..], nonces + {u.nonce}, parent);
    }
  }

  lemma {:induction false} UnclesSupply(w: World, uncles: seq<Uncle>, nonces: set<nat>, parent: Parent, n: nat)
    requires forall i | 0 <= i < |uncles| :: uncles[i].coinbase < n
    ensures var r := RewardUncles(w, uncles, nonces, parent);
            r.Some? ==> Supply(r.value, n) == Supply(w, n) + |uncles| * (BLOCK_REWARD * 15 / 16)
    decreases |uncles|
  {
    if uncles != [] {
      var u := uncles[0];
      UncleSupply(w, u.coinbase, n);
      assert forall i | 0 <= i < |uncles[1..]| :: uncles[1..][i] == uncles[i + 1];
      UnclesSupply(Credit(Touch(w, u.coinbase), u.coinbase, BLOCK_REWARD * 15 / 16), uncles[1..], nonces + {u.nonce}, parent, n);
    }
  }

  lemma {:induction false} UncleSupply(w: World, a: Addr, n: nat)
    requires a < n
    ensures Supply(Credit(Touch(w, a), a, BLOCK_REWARD * 15 / 16), n) == Supply(w, n) + BLOCK_REWARD * 15 / 16
  {
    TouchSupply(w, n, a);
    CreditSupply(Touch(w, a), n, a, BLOCK_REWARD * 15 / 16);
  }

  lemma {:induction false} RewardSupply(w: World, cb: Addr, uncles: seq<Uncle>, nonce: nat, parent: Parent, n: nat)
    requires cb < n && forall i | 0 <= i < |uncles| :: uncles[i].coinbase < n
    ensures var r := Reward(w, cb, uncles, nonce, parent);
            r.Some? ==> Supply(r.value, n)
                        == Supply(w, n) + BLOCK_REWARD + |uncles| * (BLOCK_REWARD / 32 + BLOCK_REWARD * 15 / 16)
  {
    UnclesSupply(w, uncles, {nonce}, parent, n);
    var r := RewardUncles(w, uncles, {nonce}, parent);
    if r.Some? {
      TouchSupply(r.value, n, cb);
      CreditSupply(Touch(r.value, cb), n, cb, BLOCK_REWARD + |uncles| * (BLOCK_REWARD / 32));
    }
  }

  /** No two uncles of a rewarded block have the same nonce, and none has that of the block. */
  lemma {:induction false} UnclesDistinct(w: World, uncles: seq<Uncle>, nonces: set<nat>, parent: Parent, i: nat)
    requires RewardUncles(w, uncles, nonces, parent).Some? && i < |uncles|
    ensures uncles[i].nonce !in nonces
    ensures forall j | 0 <= j < i :: uncles[j].nonce != uncles[i].nonce
    decreases |uncles|
  {
    var u := uncles[0];
    if i > 0 {
      UnclesDistinct(Credit(Touch(w, u.coinbase), u.coinbase, BLOCK_REWARD * 15 / 16), uncles[1..], nonces + {u.nonce}, parent, i - 1);
      forall j | 0 <= j < i ensures uncles[j].nonce != uncles[i].nonce {
        if j > 0 { assert uncles[1..][j - 1] == uncles[j]; }
      }
    }
  }

  // ---- Whole blocks ----------------------------------------------------------------------------

  const GAS_LIMIT: int := 100_000_000_000_000_000_000_000

  datatype Block = Block(coinbase: Addr, txs: seq<Tx>, receipts: seq<Receipt>, uncles: seq<Uncle>, nonce: nat,
                         root: map<Addr, Record>)

  /** The coinbase gets an account and its gas pool. */
  function Opened(w: World, cb: Addr): World {
    var w' := Touch(w, cb);
    w'[cb := w'[cb].(pool := GAS_LIMIT)]
  }

  /** The rewards, and the last update of the state. */
  function Close(w: World, cb: Addr, uncles: seq<Uncle>, nonce: nat, parent: Parent, last: Plans): Option<World> {
    match Reward(w, cb, uncles, nonce, parent)
    case None => None
    case Some(w') => Some(Updated(w', last))
  }

  /** What the miner makes of the transactions at hand. The rewards are paid before the nonce of
      the block is found; `blank` is there in its place. An uncle that is not allowed stops the
      rewards and nothing else. */
  function Mine(e: Engine, w: World, cb: Addr, jobs: seq<Job>, last: Plans, uncles: seq<Uncle>, blank: nat, nonce: nat,
                parent: Parent): Option<(Block, World)>
  {
    match Process(TransitBy(e, cb), Opened(w, cb), jobs, [], 0)
    case None => None
    case Some(r) =>
      var w' := Updated(Rewarded(r.world, cb, uncles, blank, parent), last);
      Some((Block(cb, r.handled, r.receipts, uncles, nonce, Records(w')), w'))
  }

  /** `ProcessWithParent`, for the checks that concern the accounts. The jobs are the block's
      transactions with the plans of the one who checks it. */
  function Check(e: Engine, w: World, b: Block, jobs: seq<Job>, last: Plans, parent: Parent): Option<World>
    requires Txs(jobs) == b.txs
  {
    match Process(TransitBy(e, b.coinbase), Opened(w, b.coinbase), jobs, b.receipts, 0)
    case None => None
    case Some(r) =>
      if r.receipts != b.receipts then None
      else
        match Close(r.world, b.coinbase, b.uncles, b.nonce, parent, last)
        case None => None
        case Some(w') => if Records(w') != b.root then None else Some(w')
  }

  /** The last update loses nothing. */
  ghost predicate CalmClose(w: World, cb: Addr, uncles: seq<Uncle>, nonce: nat, parent: Parent, last: Plans) {
    var r := Reward(w, cb, uncles, nonce, parent);
    r.Some? ==> CalmPlans(r.value, last)
  }

  lemma {:induction false} SameClose(w: World, cb: Addr, uncles: seq<Uncle>, nonce: nat, last: Plans,
                                     nonce': nat, last': Plans, parent: Parent)
    requires CalmClose(w, cb, uncles, nonce, parent, last) && CalmClose(w, cb, uncles, nonce', parent, last')
    requires Reward(w, cb, uncles, nonce, parent).Some? && forall i | 0 <= i < |uncles| :: uncles[i].nonce != nonce'
    ensures Close(w, cb, uncles, nonce', parent, last') == Some(Updated(Rewarded(w, cb, uncles, nonce, parent), last))
  {
    OtherNonces(w, uncles, {nonce}, {nonce'}, parent);
    var r := Reward(w, cb, uncles, nonce, parent);
    CalmUpdated(r.value, last);
    CalmUpdated(r.value, last');
  }

  /** A mined block whose uncles are allowed, and whose nonce none of them has, is accepted and leads
      to the miner's own state: if all senders have accounts, and neither the miner nor the one
      who checks loses storage. */
  lemma {:induction false} MinedBlockAccepted(e: Engine, w: World, cb: Addr, jobs: seq<Job>, last: Plans, uncles: seq<Uncle>,
                                              blank: nat, nonce: nat, parent: Parent, again: seq<Job>, last': Plans)
    requires SendersKnown(Opened(w, cb), jobs) && CalmRun(e, cb, Opened(w, cb), jobs)
    requires forall i | 0 <= i < |uncles| :: uncles[i].nonce != nonce
    requires var mined := Mine(e, w, cb, jobs, last, uncles, blank, nonce, parent);
             mined.Some? && Txs(again) == mined.value.0.txs && CalmRun(e, cb, Opened(w, cb), again)
    requires var r := Process(TransitBy(e, cb), Opened(w, cb), jobs, [], 0).value.world;
             Reward(r, cb, uncles, blank, parent).Some? && CalmClose(r, cb, uncles, blank, parent, last) && CalmClose(r, cb, uncles, nonce, parent, last')
    ensures var (b, w') := Mine(e, w, cb, jobs, last, uncles, blank, nonce, parent).value;
            Check(e, w, b, again, last', parent) == Some(w')
  {
    KnownDropNothing(e, Opened(w, cb), jobs, cb);
    Replay(e, cb, Opened(w, cb), jobs, again, 0);
    var r := Process(TransitBy(e, cb), Opened(w, cb), jobs, [], 0).value;
    SameClose(r.world, cb, uncles, blank, last, nonce, last', parent);
  }

  /** A block with an uncle that is not allowed is rejected, though the miner goes on with it. */
  lemma {:induction false} BadUncleRejected(e: Engine, w: World, b: Block, jobs: seq<Job>, last: Plans, parent: Parent)
    requires Txs(jobs) == b.txs && RewardUncles(w, b.uncles, {b.nonce}, parent) == None
    ensures Check(e, w, b, jobs, last, parent) == None
  {
    var r := Process(TransitBy(e, b.coinbase), Opened(w, b.coinbase), jobs, b.receipts, 0);
    if r.Some? { UnclesAllowed(w, r.value.world, b.uncles, {b.nonce}, parent); }
  }

  /** A block is rejected if a transaction was dropped whose sender had no account: the miner's
      state has an empty account for them and the state of the one who checks has not. */
  lemma {:induction false} UnknownSenderRejected(e: Engine, w: World, cb: Addr, job: Job, last: Plans, blank: nat, nonce: nat,
                                                 parent: Parent, last': Plans)
    requires var o := Opened(w, cb);
             && Permits(e, o, job.tx) && !(MaxGas(e, o).Some? && GasValue(job.tx) > MaxGas(e, o).value)
             && job.tx.sender !in o && job.tx.nonce != 0
    ensures var mined := Mine(e, w, cb, [job], last, [], blank, nonce, parent);
            mined.Some? && mined.value.0.txs == [] && Check(e, w, mined.value.0, [], last', parent) == None
  {
    var o, m := Opened(w, cb), TransitBy(e, cb);
    var dropped := Do(m, o, job);
    assert dropped == Outcome(Touch(o, job.tx.sender), 0, NonceError);
    assert [job][1..] == [];
    assert Process(m, o, [job], [], 0) == Some(Result(dropped.world, [], [], 0));
    var (b, w') := Mine(e, w, cb, [job], last, [], blank, nonce, parent).value;
    assert job.tx.sender in b.root;
  }

  /** The supply after an accepted block, whatever its storage tries lose. */
  lemma {:induction false} BlockSupply(e: Engine, w: World, b: Block, jobs: seq<Job>, last: Plans, parent: Parent, n: nat)
    requires Fair(e, n) && b.coinbase < n && forall i | 0 <= i < |b.uncles| :: b.uncles[i].coinbase < n
    requires Txs(jobs) == b.txs && AllProper(Opened(w, b.coinbase), jobs, b.coinbase, n)
    requires Check(e, w, b, jobs, last, parent).Some?
    ensures Supply(Check(e, w, b, jobs, last, parent).value, n)
            == Supply(w, n) + BLOCK_REWARD + |b.uncles| * (BLOCK_REWARD / 32 + BLOCK_REWARD * 15 / 16)
               - Losses(e, Opened(w, b.coinbase), jobs, b.coinbase)
  {
    var cb := b.coinbase;
    TouchSupply(w, n, cb);
    SupplyUpdate(Touch(w, cb), n, cb, Touch(w, cb)[cb].(pool := GAS_LIMIT));
    ProcessSupply(e, Opened(w, cb), jobs, cb, b.receipts, 0, n);
    var r := Process(TransitBy(e, cb), Opened(w, cb), jobs, b.receipts, 0);
    RewardSupply(r.value.world, cb, b.uncles, b.nonce, parent, n);
    UpdatedSupply(Reward(r.value.world, cb, b.uncles, b.nonce, parent).value, last, n);
  }
}
