/** Blocks and the order in which storage caches are written to their tries: when it does not
    matter, whatever of the tries was loaded, and a mined block that is rejected for it. */
module BlockOrder {
  import opened Bytes
  import PatriciaTree
  import NodeStore
  import opened Storage
  import opened StorageTrie
  import StorageOrder
  import opened World
  import opened State
  import opened Blocks

  // ---- When no order matters ----------------------------------------------------------------------

  /** How an update writes the storage of all accounts: for each the order of its slots, and what
      becomes of its trie. */
  datatype Writing = Writing(orders: map<Addr, seq<nat>>, trails: map<Addr, seq<Stage>>)

  /** The plan of an account is that of its storage trie. The trie has the account's slots and is
      canonical, as every update leaves it; it was built, opened from the account's record, or
      both. */
  ghost predicate PlanOfTrie(h: NodeStore.Codec, v: Account, plan: Plan, order: seq<nat>, trail: seq<Stage>) {
    && Orders(v.cache, order) && Small(v.cache) && Trail(h, v.cache, order, trail)
    && Well(trail[0]) && PatriciaTree.Canonical(trail[0].tree) && Carries(trail[0].tree, v.disk)
    && plan == PlanBy(v.disk, v.cache, order, trail)
  }

  ghost predicate PlansOfTries(h: NodeStore.Codec, w: World, plans: Plans, wr: Writing) {
    && wr.orders.Keys == wr.trails.Keys == w.Keys
    && forall a | a in w :: PlanOfTrie(h, w[a], PlanAt(plans, a), wr.orders[a], wr.trails[a])
  }

  /** No slot that is cleared can take others with it. */
  ghost predicate QuietAt(h: NodeStore.Codec, v: Account, order: seq<nat>, trail: seq<Stage>) {
    AllCached(v.cache, order) && trail != [] && Quiet(h, trail[0], v.cache, order)
  }

  ghost predicate QuietWriting(h: NodeStore.Codec, w: World, wr: Writing)
    requires wr.orders.Keys == wr.trails.Keys == w.Keys
  {
    forall a | a in w :: QuietAt(h, w[a], wr.orders[a], wr.trails[a])
  }

  /** A quiet update loses no storage. */
  lemma {:induction false} QuietPlans(h: NodeStore.Codec, w: World, plans: Plans, wr: Writing)
    requires h.mode != NodeStore.Faded && PlansOfTries(h, w, plans, wr) && QuietWriting(h, w, wr)
    ensures CalmPlans(w, plans)
  {
    forall a | a in w ensures TakesAll(w[a].cache, PlanAt(plans, a)) && Calm(PlanAt(plans, a)) {
      var order, trail := wr.orders[a], wr.trails[a];
      assert PlanOfTrie(h, w[a], PlanAt(plans, a), order, trail) && QuietAt(h, w[a], order, trail);
      QuietCalm(h, w[a].disk, w[a].cache, order, trail);
      PlanTakesAll(w[a].disk, w[a].cache, order, trail);
    }
  }

  /** If no storage trie was loaded, an update loses none of it exactly if it is quiet. */
  lemma {:induction false} CalmIffQuiet(h: NodeStore.Codec, w: World, plans: Plans, wr: Writing)
    requires h.mode != NodeStore.Faded && PlansOfTries(h, w, plans, wr)
    requires forall a | a in w :: wr.trails[a] != [] && wr.trails[a][0].mode == NodeStore.Built
    ensures CalmPlans(w, plans) <==> QuietWriting(h, w, wr)
  {
    forall a | a in w
      ensures TakesAll(w[a].cache, PlanAt(plans, a))
      ensures Calm(PlanAt(plans, a)) <==> QuietAt(h, w[a], wr.orders[a], wr.trails[a])
    {
      var order, trail := wr.orders[a], wr.trails[a];
      assert PlanOfTrie(h, w[a], PlanAt(plans, a), order, trail);
      CalmIff(h, w[a].disk, w[a].cache, order, trail);
      PlanTakesAll(w[a].disk, w[a].cache, order, trail);
    }
  }

  /** The account was read from its record; slots it has are overwritten and less than 16 cleared. */
  ghost predicate OnRecord(v: Account, order: seq<nat>, trail: seq<Stage>) {
    && AllCached(v.cache, order) && Distinct(order) && Overwrites(v.disk, v.cache, order) && Clears(v.cache, order) < 16
    && trail != [] && trail[0].mode == NodeStore.Opened(0)
  }

  /** Accounts that are read from their records and overwritten lose nothing, in any orders. */
  lemma {:induction false} RecordsCalm(h: NodeStore.Codec, w: World, plans: Plans, wr: Writing)
    requires h.mode != NodeStore.Faded && PlansOfTries(h, w, plans, wr)
    requires forall a | a in w :: OnRecord(w[a], wr.orders[a], wr.trails[a])
    ensures QuietWriting(h, w, wr) && Updated(w, plans) == Settled(w)
  {
    forall a | a in w ensures QuietAt(h, w[a], wr.orders[a], wr.trails[a]) {
      var order, trail := wr.orders[a], wr.trails[a];
      assert PlanOfTrie(h, w[a], PlanAt(plans, a), order, trail) && OnRecord(w[a], order, trail);
      OverwritesQuiet(h, trail[0], w[a].disk, w[a].cache, order);
    }
    QuietPlans(h, w, plans, wr);
    CalmUpdated(w, plans);
  }

  /** After every transaction that is not dropped the storage is written to its tries, and quietly. */
  ghost predicate QuietRun(h: NodeStore.Codec, e: Engine, cb: Addr, w: World, jobs: seq<Job>, wrs: seq<Writing>)
    requires |wrs| == |jobs|
    decreases |jobs|
  {
    jobs == [] ||
    (&& cb in w
     && (var o := Transit(e, w, jobs[0].tx, cb);
         Dropped(o) || (PlansOfTries(h, o.world, jobs[0].plans, wrs[0]) && QuietWriting(h, o.world, wrs[0])))
     && QuietRun(h, e, cb, Do(TransitBy(e, cb), w, jobs[0]).world, jobs[1..], wrs[1..]))
  }

  lemma {:induction false} QuietRunCalm(h: NodeStore.Codec, e: Engine, cb: Addr, w: World, jobs: seq<Job>, wrs: seq<Writing>)
    requires h.mode != NodeStore.Faded && |wrs| == |jobs| && QuietRun(h, e, cb, w, jobs, wrs)
    ensures CalmRun(e, cb, w, jobs)
    decreases |jobs|
  {
    if jobs != [] {
      var o := Transit(e, w, jobs[0].tx, cb);
      if !Dropped(o) { QuietPlans(h, o.world, jobs[0].plans, wrs[0]); }
      QuietRunCalm(h, e, cb, Do(TransitBy(e, cb), w, jobs[0]).world, jobs[1..], wrs[1..]);
    }
  }

  /** The last update of a block is quiet. */
  ghost predicate QuietClose(h: NodeStore.Codec, w: World, cb: Addr, uncles: seq<Uncle>, nonce: nat, parent: Parent,
                             last: Plans, wr: Writing) {
    var r := Reward(w, cb, uncles, nonce, parent);
    r.Some? ==> PlansOfTries(h, r.value, last, wr) && QuietWriting(h, r.value, wr)
  }

  /** A mined block is accepted if all senders have accounts and both sides write storage quietly,
      each in its own orders and on its own tries, of which different parts may be loaded. */
  lemma {:induction false} MinedBlockOnTries(h: NodeStore.Codec, e: Engine, w: World, cb: Addr, jobs: seq<Job>, last: Plans,
                                             uncles: seq<Uncle>, blank: nat, nonce: nat, parent: Parent,
                                             again: seq<Job>, last': Plans,
                                             wrs: seq<Writing>, wr: Writing, wrs': seq<Writing>, wr': Writing)
    requires h.mode != NodeStore.Faded && |wrs| == |jobs| && |wrs'| == |again|
    requires SendersKnown(Opened(w, cb), jobs) && forall i | 0 <= i < |uncles| :: uncles[i].nonce != nonce
    requires QuietRun(h, e, cb, Opened(w, cb), jobs, wrs) && QuietRun(h, e, cb, Opened(w, cb), again, wrs')
    requires var mined := Mine(e, w, cb, jobs, last, uncles, blank, nonce, parent);
             mined.Some? && Txs(again) == mined.value.0.txs
    requires var r := Process(TransitBy(e, cb), Opened(w, cb), jobs, [], 0).value.world;
             && Reward(r, cb, uncles, blank, parent).Some?
             && QuietClose(h, r, cb, uncles, blank, parent, last, wr)
             && QuietClose(h, r, cb, uncles, nonce, parent, last', wr')
    ensures var (b, w') := Mine(e, w, cb, jobs, last, uncles, blank, nonce, parent).value;
            Check(e, w, b, again, last', parent) == Some(w')
  {
    QuietRunCalm(h, e, cb, Opened(w, cb), jobs, wrs);
    QuietRunCalm(h, e, cb, Opened(w, cb), again, wrs');
    var r := Process(TransitBy(e, cb), Opened(w, cb), jobs, [], 0).value.world;
    QuietCloses(h, r, cb, uncles, blank, parent, last, wr);
    QuietCloses(h, r, cb, uncles, nonce, parent, last', wr');
    MinedBlockAccepted(e, w, cb, jobs, last, uncles, blank, nonce, parent, again, last');
  }

  lemma {:induction false} QuietCloses(h: NodeStore.Codec, w: World, cb: Addr, uncles: seq<Uncle>, nonce: nat, parent: Parent,
                                       last: Plans, wr: Writing)
    requires h.mode != NodeStore.Faded && QuietClose(h, w, cb, uncles, nonce, parent, last, wr)
    ensures CalmClose(w, cb, uncles, nonce, parent, last)
  {
    var r := Reward(w, cb, uncles, nonce, parent);
    if r.Some? { QuietPlans(h, r.value, last, wr); }
  }

  // ---- When it does -----------------------------------------------------------------------------------

  /** A transaction after which an account has storage for which the order decides: its trie was
      never loaded and has the account's slots. */
  ghost predicate Undecided(o: Outcome, a: Addr, h: NodeStore.Codec, t: PatriciaTree.Tree, order: seq<nat>, order': seq<nat>) {
    && !Dropped(o) && a in o.world && PatriciaTree.Canonical(t) && PatriciaTree.Node(t) && Carries(t, o.world[a].disk)
    && StorageOrder.OrderDecides(h, t, o.world[a].disk, o.world[a].cache, order, order')
  }

  ghost function PlanIn(o: Outcome, a: Addr, h: NodeStore.Codec, t: PatriciaTree.Tree, order: seq<nat>): Plans
    requires a in o.world && PatriciaTree.Node(t) && AllCached(o.world[a].cache, order)
  {
    map[a := PlanOf(h, t, o.world[a].disk, o.world[a].cache, order)]
  }

  /** What is mined with some jobs is rejected with others for the same transactions. */
  ghost predicate Rejected(e: Engine, w: World, cb: Addr, jobs: seq<Job>, again: seq<Job>, last: Plans, last': Plans,
                           blank: nat, nonce: nat, parent: Parent)
  {
    var mined := Mine(e, w, cb, jobs, last, [], blank, nonce, parent);
    && mined.Some? && Txs(again) == mined.value.0.txs
    && Check(e, w, mined.value.0, again, last', parent) == None
  }

  /** In a block of two transactions, the miner writes the storage of an account in one order after
      the second, the other side in another: the receipts differ. */
  lemma {:induction false} OrderRejects(e: Engine, w: World, cb: Addr, first: Job, first': Job, tx: Tx, a: Addr,
                                        h: NodeStore.Codec, t: PatriciaTree.Tree, order: seq<nat>, order': seq<nat>,
                                        last: Plans, last': Plans, blank: nat, nonce: nat, parent: Parent)
    requires var done := Do(TransitBy(e, cb), Opened(w, cb), first);
             && first.tx == first'.tx && !Dropped(done) && Do(TransitBy(e, cb), Opened(w, cb), first') == done
             && cb in done.world && Undecided(Transit(e, done.world, tx, cb), a, h, t, order, order')
    ensures var o := Transit(e, Do(TransitBy(e, cb), Opened(w, cb), first).world, tx, cb);
            Rejected(e, w, cb, [first, Job(tx, PlanIn(o, a, h, t, order))], [first', Job(tx, PlanIn(o, a, h, t, order'))],
                     last, last', blank, nonce, parent)
  {
    var w1 := Do(TransitBy(e, cb), Opened(w, cb), first).world;
    var o := Transit(e, w1, tx, cb);
    var second, second' := Job(tx, PlanIn(o, a, h, t, order)), Job(tx, PlanIn(o, a, h, t, order'));
    PostsDiffer(e, w1, cb, second, second', a);
    SecondRejected(TransitBy(e, cb), Opened(w, cb), e, w, cb, first, first', second, second', last, last', blank, nonce, parent);
  }

  lemma {:induction false} PostsDiffer(e: Engine, w: World, cb: Addr, job: Job, job': Job, a: Addr)
    requires cb in w && job.tx == job'.tx
    requires var o := Transit(e, w, job.tx, cb);
             && !Dropped(o) && a in o.world
             && SyncMap(o.world[a].disk, o.world[a].cache, PlanAt(job.plans, a))
                != SyncMap(o.world[a].disk, o.world[a].cache, PlanAt(job'.plans, a))
    ensures Records(Do(TransitBy(e, cb), w, job).world) != Records(Do(TransitBy(e, cb), w, job').world)
    ensures !Dropped(Do(TransitBy(e, cb), w, job)) && !Dropped(Do(TransitBy(e, cb), w, job'))
  {
    var r, r' := Records(Do(TransitBy(e, cb), w, job).world), Records(Do(TransitBy(e, cb), w, job').world);
    assert a in r && a in r' && r[a].storage != r'[a].storage;
  }

  lemma {:induction false} SecondRejected(m: Machine, o: World, e: Engine, w: World, cb: Addr, first: Job, first': Job, second: Job, second': Job,
                                          last: Plans, last': Plans, blank: nat, nonce: nat, parent: Parent)
    requires m == TransitBy(e, cb) && o == Opened(w, cb)
    requires var done := Do(m, o, first);
             && first.tx == first'.tx && second.tx == second'.tx && !Dropped(done) && Do(m, o, first') == done
             && !Dropped(Do(m, done.world, second)) && !Dropped(Do(m, done.world, second'))
             && Records(Do(m, done.world, second).world) != Records(Do(m, done.world, second').world)
    ensures Rejected(e, w, cb, [first, second], [first', second'], last, last', blank, nonce, parent)
  {
    var r := TwoJobs(m, o, first, second);
    SecondDiffers(m, o, first', second', r.receipts);
    TwoTxs(first', second');
    RejectedAt(e, w, cb, [first, second], [first', second'], r, last, last', blank, nonce, parent);
  }

  lemma {:induction false} TwoTxs(first: Job, second: Job)
    ensures Txs([first, second]) == [first.tx, second.tx]
  {
  }

  lemma {:induction false} RejectedAt(e: Engine, w: World, cb: Addr, jobs: seq<Job>, again: seq<Job>, r: Result,
                                      last: Plans, last': Plans, blank: nat, nonce: nat, parent: Parent)
    requires var m, o := TransitBy(e, cb), Opened(w, cb);
             Process(m, o, jobs, [], 0) == Some(r) && Process(m, o, again, r.receipts, 0) == None
    requires r.handled == Txs(again)
    ensures Rejected(e, w, cb, jobs, again, last, last', blank, nonce, parent)
  {
  }

  /** A list of two transactions that are not dropped. */
  lemma {:induction false} TwoJobs(m: Machine, w: World, first: Job, second: Job) returns (r: Result)
    requires !Dropped(Do(m, w, first)) && !Dropped(Do(m, Do(m, w, first).world, second))
    ensures Process(m, w, [first, second], [], 0) == Some(r) && r.handled == [first.tx, second.tx]
    ensures |r.receipts| == 2 && r.receipts[1].post == Records(Do(m, Do(m, w, first).world, second).world)
  {
    var o1 := Do(m, w, first);
    var r1 := ReceiptOf(first.tx, o1, 0);
    assert [first, second][1..] == [second];
    OneJob(m, o1.world, second, r1.cumulative);
    r := Process(m, w, [first, second], [], 0).value;
  }

  lemma {:induction false} OneJob(m: Machine, w: World, job: Job, used: int)
    requires !Dropped(Do(m, w, job))
    ensures var o := Do(m, w, job);
            var r := ReceiptOf(job.tx, o, used);
            Process(m, w, [job], [], used) == Some(Result(o.world, [r], [job.tx], r.cumulative))
  {
    var o := Do(m, w, job);
    var r := ReceiptOf(job.tx, o, used);
    assert [job][1..] == [];
    assert Process(m, o.world, [], [], r.cumulative) == Some(Result(o.world, [], [], r.cumulative));
    assert [r] + [] == [r] && [job.tx] + [] == [job.tx];
  }

  lemma {:induction false} SecondDiffers(m: Machine, w: World, first: Job, second: Job, expected: seq<Receipt>)
    requires |expected| == 2 && !Dropped(Do(m, w, first)) && !Dropped(Do(m, Do(m, w, first).world, second))
    requires expected[1].post != Records(Do(m, Do(m, w, first).world, second).world)
    ensures Process(m, w, [first, second], expected, 0) == None
  {
    assert [first, second][1..] == [second];
    assert Rest(expected) == [expected[1]];
  }

  // ---- Such a block -------------------------------------------------------------------------------

  /** A machine on which a contract fills three slots if the first is empty, and clears the first
      if it is not. */
  function Toggling(s: nat, s1: nat, s2: nat, x: nat, y: nat, v: nat): Engine {
    Engine((w: World, tx: Tx) => true, (w: World) => None,
           (w: World, tx: Tx, at: Addr, gas: nat) =>
             Ran(false, false,
                 if at in w then Toggled(w[at], at, s, s1, s2, x, y, v) else [], gas, []))
  }

  function Filling(at: Addr, s: nat, s1: nat, s2: nat, x: nat, y: nat, v: nat): seq<Write> {
    [Write(at, Store(s, x)), Write(at, Store(s1, y)), Write(at, Store(s2, v))]
  }

  /** The account keeps its code and its storage. */
  predicate Untouched(w: World, w': World, a: Addr) {
    a in w && a in w' && w'[a].code == w[a].code && w'[a].disk == w[a].disk && w'[a].cache == w[a].cache
  }

  /** A call of the contract without value or price, by somebody else. */
  predicate FreeCall(w: World, tx: Tx, cb: Addr, a: Addr) {
    && cb in w && w[cb].pool >= GAS_TX && a != cb && a != tx.sender
    && tx.sender in w && w[tx.sender].nonce == tx.nonce && w[tx.sender].balance >= 0
    && tx.to == Some(a) && a in w && w[a].code != []
    && tx.value == 0 && tx.price == 0 && tx.data == [] && tx.gas == GAS_TX
  }

  predicate OnlyAt(ws: seq<Write>, a: Addr) {
    forall i | 0 <= i < |ws| :: ws[i].addr == a
  }

  lemma {:induction false} WrittenOnlyAt(w: World, ws: seq<Write>, a: Addr, b: Addr)
    requires OnlyAt(ws, a) && a in w && b in w && b != a
    ensures b in Written(w, ws) && Written(w, ws)[b] == w[b]
    decreases |ws|
  {
    if ws != [] { WrittenOnlyAt(WriteOne(w, ws[0]), ws[1..], a, b); }
  }

  lemma {:induction false} WrittenPlain(w: World, ws: seq<Write>, a: Addr)
    requires OnlyAt(ws, a) && a in w && OthersPlain(w, a)
    ensures OthersPlain(Written(w, ws), a)
    decreases |ws|
  {
    if ws != [] { WrittenPlain(WriteOne(w, ws[0]), ws[1..], a); }
  }

  /** The accounts that matter after such a call. */
  ghost predicate Called(w: World, tx: Tx, cb: Addr, w': World) {
    && tx.sender in w && cb in w
    && tx.sender in w' && w'[tx.sender].nonce == (tx.nonce + 1) % TWO64 && w'[tx.sender].balance == w[tx.sender].balance
    && cb in w' && w'[cb].pool >= w[cb].pool
  }

  /** No other account has anything cached. */
  predicate OthersPlain(w: World, a: Addr) {
    forall b | b in w && b != a :: w[b].cache == map[]
  }

  /** The state right before the contract runs. */
  lemma {:induction false} BeforeRun(e: Engine, w: World, tx: Tx, cb: Addr, a: Addr) returns (w': World)
    requires FreeCall(w, tx, cb, a) && OthersPlain(w, a) && Permits(e, w, tx) && MaxGas(e, w) == None
    ensures Untouched(w, w', a) && tx.sender in w' && cb in w' && Called(w, tx, cb, w') && OthersPlain(w', a)
    ensures Transit(e, w, tx, cb) == Ended(w', w', tx, cb, RunOf(e, w', tx, a, 0), None)
  {
    assert GasValue(tx) == 0 && DataGas(tx) == GAS_TX;
    var (w1, error) := PreCheck(e, w, tx, cb);
    assert error == NoError && Untouched(w, w1, a);
    assert w1[tx.sender].balance == w[tx.sender].balance && w1[cb].pool == w[cb].pool;
    var w2 := NextNonce(w1, tx.sender);
    w' := Sent(w2, tx, a);
    assert Untouched(w, w', a);
  }

  /** What is left of such a call: what the contract wrote to its own account. */
  ghost predicate CallDone(w: World, tx: Tx, cb: Addr, a: Addr, w': World, ran: Ran, o: Outcome) {
    var u := Written(w', ran.writes);
    && o.error == NoError && a in u && a in o.world && o.world[a] == u[a]
    && Called(w, tx, cb, o.world) && OthersPlain(o.world, a)
  }

  lemma {:induction false} CallRuns(w: World, tx: Tx, cb: Addr, a: Addr, w': World, ran: Ran)
    requires FreeCall(w, tx, cb, a) && Untouched(w, w', a) && Called(w, tx, cb, w') && OthersPlain(w', a)
    requires OnlyAt(ran.writes, a) && !ran.failed && !ran.swapped
    ensures CallDone(w, tx, cb, a, w', ran, Ended(w', w', tx, cb, ran, None))
  {
    WrittenKeeps(w', ran.writes, a);
    WrittenOnlyAt(w', ran.writes, a, tx.sender);
    WrittenOnlyAt(w', ran.writes, a, cb);
    WrittenPlain(w', ran.writes, a);
    assert ran.gas * tx.price == 0;
  }

  /** The machine is such a one, as far as this contract goes. */
  ghost predicate Toggles(e: Engine, tx: Tx, a: Addr, s: nat, s1: nat, s2: nat, x: nat, y: nat, v: nat) {
    && (forall w: World :: Permits(e, w, tx) && MaxGas(e, w) == None)
    && (forall w: World | a in w ::
          RunOf(e, w, tx, a, 0) == Ran(false, false, Toggled(w[a], a, s, s1, s2, x, y, v), 0, []))
  }

  function Toggled(c: Account, a: Addr, s: nat, s1: nat, s2: nat, x: nat, y: nat, v: nat): seq<Write> {
    if Read(c.disk, c.cache, s) == 0 then Filling(a, s, s1, s2, x, y, v) else [Write(a, Store(s, 0))]
  }

  lemma {:induction false} TogglingToggles(tx: Tx, a: Addr, s: nat, s1: nat, s2: nat, x: nat, y: nat, v: nat)
    ensures Toggles(Toggling(s, s1, s2, x, y, v), tx, a, s, s1, s2, x, y, v)
  {
  }

  lemma {:induction false} ToggleCall(e: Engine, s: nat, s1: nat, s2: nat, x: nat, y: nat, v: nat, w: World, tx: Tx, cb: Addr, a: Addr)
    returns (w': World, ran: Ran)
    requires FreeCall(w, tx, cb, a) && OthersPlain(w, a) && Toggles(e, tx, a, s, s1, s2, x, y, v)
    ensures Untouched(w, w', a) && CallDone(w, tx, cb, a, w', ran, Transit(e, w, tx, cb))
    ensures ran.writes == Toggled(w[a], a, s, s1, s2, x, y, v)
  {
    w' := BeforeRun(e, w, tx, cb, a);
    ran := RunOf(e, w', tx, a, 0);
    assert OnlyAt(ran.writes, a);
    CallRuns(w, tx, cb, a, w', ran);
  }

  lemma {:induction false} FillingWrites(w: World, a: Addr, s: nat, s1: nat, s2: nat, x: nat, y: nat, v: nat)
    requires a in w && w[a].cache == map[]
    ensures var w' := Written(w, Filling(a, s, s1, s2, x, y, v));
            a in w' && w'[a] == w[a].(cache := StorageOrder.Slots(s, s1, s2, x, y, v))
  {
    var x1, x2, x3 := Write(a, Store(s, x)), Write(a, Store(s1, y)), Write(a, Store(s2, v));
    var ws := Filling(a, s, s1, s2, x, y, v);
    assert ws[1..] == [x2, x3] && [x2, x3][1..] == [x3] && [x3][1..] == [];
    var w1 := WriteOne(w, x1);
    var w2 := WriteOne(w1, x2);
    var w3 := WriteOne(w2, x3);
    assert Written(w, ws) == Written(w1, ws[1..]) == Written(w2, [x3]) == Written(w3, []);
    assert w1[a].cache == map[s := x] && w2[a].cache == map[s := x, s1 := y];
  }

  lemma {:induction false} ClearingWrite(w: World, a: Addr, s: nat)
    requires a in w
    ensures var w' := Written(w, [Write(a, Store(s, 0))]);
            a in w' && w'[a] == w[a].(cache := w[a].cache[s := 0])
  {
    assert [Write(a, Store(s, 0))][1..] == [];
  }

  /** The first call fills the slots. */
  lemma {:induction false} Filled(w: World, tx: Tx, cb: Addr, a: Addr, w': World, ran: Ran, o: Outcome,
                                  s: nat, s1: nat, s2: nat, x: nat, y: nat, v: nat)
    requires FreeCall(w, tx, cb, a) && w[a].disk == map[] && w[a].cache == map[] && Untouched(w, w', a)
    requires CallDone(w, tx, cb, a, w', ran, o) && ran.writes == Filling(a, s, s1, s2, x, y, v)
    ensures o.error == NoError && Called(w, tx, cb, o.world) && OthersPlain(o.world, a)
    ensures a in o.world && o.world[a].code == w[a].code
    ensures o.world[a].disk == map[] && o.world[a].cache == StorageOrder.Slots(s, s1, s2, x, y, v)
  {
    FillingWrites(w', a, s, s1, s2, x, y, v);
  }

  /** The second clears the first of them. */
  lemma {:induction false} ClearedOne(w: World, tx: Tx, cb: Addr, a: Addr, w': World, ran: Ran, o: Outcome,
                                      s: nat, s1: nat, s2: nat, x: nat, y: nat, v: nat)
    requires FreeCall(w, tx, cb, a) && Untouched(w, w', a) && s != s1 && s != s2
    requires w[a].cache == StorageOrder.Slots(s, s1, s2, x, y, v)
    requires CallDone(w, tx, cb, a, w', ran, o) && ran.writes == [Write(a, Store(s, 0))]
    ensures o.error == NoError && a in o.world && o.world[a].disk == w[a].disk
    ensures o.world[a].cache == StorageOrder.Slots(s, s1, s2, 0, y, v)
  {
    ClearingWrite(w', a, s);
    assert StorageOrder.Slots(s, s1, s2, x, y, v)[s := 0] == StorageOrder.Slots(s, s1, s2, 0, y, v);
  }

  // ---- The whole block ------------------------------------------------------------------------------

  /** An account without storage caches values, none of them zero, and is updated: the trie built
      has what is cached. */
  lemma {:induction false} FilledStorage(h: NodeStore.Codec, cache: map<nat, nat>, order: seq<nat>)
    requires h.mode != NodeStore.Faded && Orders(cache, order) && Small(cache) && forall k | k in cache :: cache[k] != 0
    ensures var t := Last(BuiltTrail(h, PatriciaTree.Empty, cache, order)).tree;
            && Carries(t, cache) && PatriciaTree.Canonical(t) && PatriciaTree.Node(t)
    ensures SyncMap(map[], cache, PlanOf(h, PatriciaTree.Empty, map[], cache, order)) == cache
  {
    var t := PatriciaTree.Empty;
    var trail := BuiltTrail(h, t, cache, order);
    EmptyCarries();
    BuiltTrailIs(h, t, cache, order);
    PutsQuiet(h, trail[0], cache, order);
    QuietCarries(h, map[], cache, order, trail);
    ModeKept(h, cache, order, trail);
    assert Overlay(map[], cache) == cache;
    SyncCarries(h, map[], cache, order, trail);
    CarriesOne(Last(trail).tree, SyncMap(map[], cache, PlanOf(h, t, map[], cache, order)), cache);
  }

  lemma {:induction false} EmptyCarries()
    ensures Carries(PatriciaTree.Empty, map[])
  {
    forall k ensures Bound(PatriciaTree.Empty, map[], k) {}
  }

  /** The plans of the update after which an account without storage has what is cached. */
  ghost function FillPlans(h: NodeStore.Codec, a: Addr, cache: map<nat, nat>, order: seq<nat>): Plans
    requires AllCached(cache, order)
  {
    map[a := PlanOf(h, PatriciaTree.Empty, map[], cache, order)]
  }

  ghost predicate Fills(h: NodeStore.Codec, a: Addr, cache: map<nat, nat>, order: seq<nat>) {
    AllCached(cache, order) && SyncMap(map[], cache, FillPlans(h, a, cache, order)[a]) == cache
  }

  /** It is one trie, whatever the order. */
  lemma {:induction false} FilledTrie(h: NodeStore.Codec, t: PatriciaTree.Tree, a: Addr, cache: map<nat, nat>, order: seq<nat>)
    requires h.mode != NodeStore.Faded && Orders(cache, order) && Small(cache) && forall k | k in cache :: cache[k] != 0
    requires PatriciaTree.Canonical(t) && Carries(t, cache)
    ensures Last(BuiltTrail(h, PatriciaTree.Empty, cache, order)).tree == t
    ensures Fills(h, a, cache, order)
  {
    FilledStorage(h, cache, order);
    SameSlots(Last(BuiltTrail(h, PatriciaTree.Empty, cache, order)).tree, t, cache);
  }

  lemma {:induction false} FillUpdated(plans: Plans, a: Addr, cache: map<nat, nat>, w: World)
    requires a in w && w[a].disk == map[] && w[a].cache == cache && OthersPlain(w, a)
    requires plans.Keys == {a} && SyncMap(map[], cache, plans[a]) == cache
    ensures Updated(w, plans) == w[a := w[a].(disk := cache)]
  {
    forall b | b in w && b != a ensures Updated(w, plans)[b] == w[b] { assert PlanAt(plans, b) == []; }
  }

  /** The first call, with the slots cached. */
  lemma {:induction false} FirstCall(e: Engine, w: World, cb: Addr, tx: Tx, a: Addr, s: nat, s1: nat, s2: nat, x: nat, y: nat, v: nat)
    returns (o: Outcome)
    requires FreeCall(w, tx, cb, a) && w[a].disk == map[] && w[a].cache == map[] && OthersPlain(w, a)
    requires Toggles(e, tx, a, s, s1, s2, x, y, v)
    ensures o == Transit(e, w, tx, cb) && o.error == NoError && Called(w, tx, cb, o.world) && OthersPlain(o.world, a)
    ensures a in o.world && o.world[a].code == w[a].code
    ensures o.world[a].disk == map[] && o.world[a].cache == StorageOrder.Slots(s, s1, s2, x, y, v)
  {
    var w', ran := ToggleCall(e, s, s1, s2, x, y, v, w, tx, cb, a);
    o := Transit(e, w, tx, cb);
    Filled(w, tx, cb, a, w', ran, o, s, s1, s2, x, y, v);
  }

  /** The second call, with one of them cleared. */
  lemma {:induction false} SecondCall(e: Engine, w: World, cb: Addr, tx: Tx, a: Addr, s: nat, s1: nat, s2: nat, x: nat, y: nat, v: nat)
    returns (o: Outcome)
    requires FreeCall(w, tx, cb, a) && x != 0 && s != s1 && s != s2 && Toggles(e, tx, a, s, s1, s2, x, y, v)
    requires w[a].cache == w[a].disk == StorageOrder.Slots(s, s1, s2, x, y, v) && OthersPlain(w, a)
    ensures o == Transit(e, w, tx, cb) && o.error == NoError && a in o.world && o.world[a].disk == w[a].disk
    ensures o.world[a].cache == StorageOrder.Slots(s, s1, s2, 0, y, v)
  {
    var w', ran := ToggleCall(e, s, s1, s2, x, y, v, w, tx, cb, a);
    o := Transit(e, w, tx, cb);
    ClearedOne(w, tx, cb, a, w', ran, o, s, s1, s2, x, y, v);
  }

  /** The next transaction of the same sender. */
  function NextTx(tx: Tx): Tx {
    tx.(nonce := (tx.nonce + 1) % TWO64)
  }

  lemma {:induction false} FirstDone(e: Engine, w: World, cb: Addr, job: Job, a: Addr, o: Outcome, cache: map<nat, nat>)
    requires FreeCall(w, job.tx, cb, a) && o == Transit(e, w, job.tx, cb) && o.error == NoError && Called(w, job.tx, cb, o.world)
    requires a in o.world && o.world[a].code == w[a].code && Updated(o.world, job.plans) == o.world[a := o.world[a].(disk := cache)]
    ensures var done := Do(TransitBy(e, cb), w, job);
            && done == o.(world := o.world[a := o.world[a].(disk := cache)]) && !Dropped(done)
            && FreeCall(done.world, NextTx(job.tx), cb, a)
  {
  }

  /** With the codec of the source, a block of two calls. The first fills three slots of a contract
      that has no storage, so the trie is built and never loaded; the second clears one of them.
      The miner and the other side write the same trie in the first update, in any orders. In the
      second the one puts the two slots after clearing the third, the other before: the block is
      rejected. By `StorageOrder.SlotsKin`, the slots 0, 256 and 257 will do. */
  lemma {:induction false} ClearingRejected(sha3: seq<byte> -> seq<byte>, p: seq<nat>, z: seq<nat>, s: nat, s1: nat, s2: nat,
                                            x: byte, y: byte, v: byte, w: World, cb: Addr, tx: Tx, a: Addr,
                                            order: seq<nat>, order': seq<nat>,
                                            last: Plans, last': Plans, blank: nat, nonce: nat, parent: Parent)
    returns (t: PatriciaTree.Tree, o: Outcome)
    requires forall b :: |sha3(b)| >= 32
    requires forall b, b' :: sha3(b) == sha3(b') ==> b == b'
    requires StorageOrder.Kin(p, z, s, s1, s2) && StorageOrder.Tiny(x) && StorageOrder.Tiny(y) && StorageOrder.Tiny(v)
    requires FreeCall(Opened(w, cb), tx, cb, a) && OthersPlain(w, a) && a in w && w[a].disk == map[] && w[a].cache == map[]
    requires var cache := StorageOrder.Slots(s, s1, s2, x, y, v);
             Small(cache) && Orders(cache, order) && Orders(cache, order')
    ensures var h := NodeStore.Thelonious(sha3, NodeStore.Built, NodeStore.Read);
            var cache, e := StorageOrder.Slots(s, s1, s2, x, y, v), Toggling(s, s1, s2, x, y, v);
            && t == Last(BuiltTrail(h, PatriciaTree.Empty, cache, order)).tree
            && t == Last(BuiltTrail(h, PatriciaTree.Empty, cache, order')).tree
            && Undecided(o, a, h, t, [s, s1, s2], [s1, s2, s])
            && Rejected(e, w, cb,
                        [Job(tx, FillPlans(h, a, cache, order)), Job(NextTx(tx), PlanIn(o, a, h, t, [s, s1, s2]))],
                        [Job(tx, FillPlans(h, a, cache, order')), Job(NextTx(tx), PlanIn(o, a, h, t, [s1, s2, s]))],
                        last, last', blank, nonce, parent)
  {
    var h := NodeStore.Thelonious(sha3, NodeStore.Built, NodeStore.Read);
    StorageOrder.OrderMatters(sha3, p, z, s, s1, s2, x, y, v);
    StorageOrder.KinDistinct(p, z, s, s1, s2);
    TogglingToggles(tx, a, s, s1, s2, x, y, v);
    TogglingToggles(NextTx(tx), a, s, s1, s2, x, y, v);
    t := StorageOrder.Triplet(p, z, x, y, v);
    var cache := StorageOrder.Slots(s, s1, s2, x, y, v);
    FilledSlots(h, t, a, s, s1, s2, x, y, v, cache, order, order');
    o := FillingRejected(h, t, Toggling(s, s1, s2, x, y, v), s, s1, s2, x, y, v, w, cb, tx, a, order, order', cache, last, last', blank, nonce, parent);
  }

  lemma {:induction false} FilledSlots(h: NodeStore.Codec, t: PatriciaTree.Tree, a: Addr, s: nat, s1: nat, s2: nat,
                                       x: nat, y: nat, v: nat, cache: map<nat, nat>, order: seq<nat>, order': seq<nat>)
    requires h.mode != NodeStore.Faded && x != 0 && y != 0 && v != 0 && cache == StorageOrder.Slots(s, s1, s2, x, y, v)
    requires Small(cache) && Orders(cache, order) && Orders(cache, order')
    requires PatriciaTree.Canonical(t) && Carries(t, cache)
    ensures t == Last(BuiltTrail(h, PatriciaTree.Empty, cache, order)).tree && Fills(h, a, cache, order)
    ensures t == Last(BuiltTrail(h, PatriciaTree.Empty, cache, order')).tree && Fills(h, a, cache, order')
  {
    assert forall k | k in cache :: cache[k] != 0;
    FilledTrie(h, t, a, cache, order);
    FilledTrie(h, t, a, cache, order');
  }

  lemma {:induction false} FillingRejected(h: NodeStore.Codec, t: PatriciaTree.Tree, e: Engine, s: nat, s1: nat, s2: nat,
                                           x: nat, y: nat, v: nat, w: World, cb: Addr, tx: Tx, a: Addr,
                                           order: seq<nat>, order': seq<nat>, cache: map<nat, nat>,
                                           last: Plans, last': Plans, blank: nat, nonce: nat, parent: Parent)
    returns (o: Outcome)
    requires h.mode != NodeStore.Faded && Toggles(e, tx, a, s, s1, s2, x, y, v) && Toggles(e, NextTx(tx), a, s, s1, s2, x, y, v)
    requires x != 0 && s != s1 && s != s2
    requires FreeCall(Opened(w, cb), tx, cb, a) && OthersPlain(w, a) && a in w && w[a].disk == map[] && w[a].cache == map[]
    requires cache == StorageOrder.Slots(s, s1, s2, x, y, v) && Fills(h, a, cache, order) && Fills(h, a, cache, order')
    requires PatriciaTree.Canonical(t) && PatriciaTree.Node(t) && Carries(t, cache)
    requires StorageOrder.OrderDecides(h, t, cache, StorageOrder.Slots(s, s1, s2, 0, y, v), [s, s1, s2], [s1, s2, s])
    ensures Undecided(o, a, h, t, [s, s1, s2], [s1, s2, s])
    ensures Rejected(e, w, cb,
                     [Job(tx, FillPlans(h, a, cache, order)), Job(NextTx(tx), PlanIn(o, a, h, t, [s, s1, s2]))],
                     [Job(tx, FillPlans(h, a, cache, order')), Job(NextTx(tx), PlanIn(o, a, h, t, [s1, s2, s]))],
                     last, last', blank, nonce, parent)
  {
    var first, first' := Job(tx, FillPlans(h, a, cache, order)), Job(tx, FillPlans(h, a, cache, order'));
    o := CallsRejected(e, w, cb, first, first', a, s, s1, s2, x, y, v, h, t, last, last', blank, nonce, parent);
  }

  lemma {:induction false} CallsRejected(e: Engine, w: World, cb: Addr, first: Job, first': Job, a: Addr,
                                         s: nat, s1: nat, s2: nat, x: nat, y: nat, v: nat, h: NodeStore.Codec, t: PatriciaTree.Tree,
                                         last: Plans, last': Plans, blank: nat, nonce: nat, parent: Parent)
    returns (o: Outcome)
    requires FreeCall(Opened(w, cb), first.tx, cb, a) && OthersPlain(w, a) && a in w && w[a].disk == map[] && w[a].cache == map[]
    requires first.tx == first'.tx && x != 0 && s != s1 && s != s2
    requires Toggles(e, first.tx, a, s, s1, s2, x, y, v) && Toggles(e, NextTx(first.tx), a, s, s1, s2, x, y, v)
    requires first.plans.Keys == first'.plans.Keys == {a}
    requires var cache := StorageOrder.Slots(s, s1, s2, x, y, v);
             && SyncMap(map[], cache, first.plans[a]) == cache == SyncMap(map[], cache, first'.plans[a])
             && PatriciaTree.Canonical(t) && PatriciaTree.Node(t) && Carries(t, cache)
             && StorageOrder.OrderDecides(h, t, cache, StorageOrder.Slots(s, s1, s2, 0, y, v), [s, s1, s2], [s1, s2, s])
    ensures Undecided(o, a, h, t, [s, s1, s2], [s1, s2, s])
    ensures Rejected(e, w, cb, [first, Job(NextTx(first.tx), PlanIn(o, a, h, t, [s, s1, s2]))],
                     [first', Job(NextTx(first.tx), PlanIn(o, a, h, t, [s1, s2, s]))], last, last', blank, nonce, parent)
  {
    o := TwoCalls(e, w, cb, first, first', a, s, s1, s2, x, y, v);
    OrderRejects(e, w, cb, first, first', NextTx(first.tx), a, h, t, [s, s1, s2], [s1, s2, s], last, last', blank, nonce, parent);
  }

  lemma {:induction false} TwoCalls(e: Engine, w: World, cb: Addr, first: Job, first': Job, a: Addr,
                                    s: nat, s1: nat, s2: nat, x: nat, y: nat, v: nat)
    returns (o: Outcome)
    requires FreeCall(Opened(w, cb), first.tx, cb, a) && OthersPlain(w, a) && a in w && w[a].disk == map[] && w[a].cache == map[]
    requires first.tx == first'.tx && x != 0 && s != s1 && s != s2
    requires Toggles(e, first.tx, a, s, s1, s2, x, y, v) && Toggles(e, NextTx(first.tx), a, s, s1, s2, x, y, v)
    requires first.plans.Keys == first'.plans.Keys == {a}
    requires var cache := StorageOrder.Slots(s, s1, s2, x, y, v);
             SyncMap(map[], cache, first.plans[a]) == cache == SyncMap(map[], cache, first'.plans[a])
    ensures var m := TransitBy(e, cb);
            var done := Do(m, Opened(w, cb), first);
            && !Dropped(done) && Do(m, Opened(w, cb), first') == done && cb in done.world
            && o == Transit(e, done.world, NextTx(first.tx), cb)
    ensures !Dropped(o) && a in o.world && o.world[a].disk == StorageOrder.Slots(s, s1, s2, x, y, v)
    ensures o.world[a].cache == StorageOrder.Slots(s, s1, s2, 0, y, v)
  {
    var cache, w0 := StorageOrder.Slots(s, s1, s2, x, y, v), Opened(w, cb);
    assert OthersPlain(w0, a) && w0[a].disk == w0[a].cache == map[];
    var o1 := FirstCall(e, w0, cb, first.tx, a, s, s1, s2, x, y, v);
    FillUpdated(first.plans, a, cache, o1.world);
    FillUpdated(first'.plans, a, cache, o1.world);
    FirstDone(e, w0, cb, first, a, o1, cache);
    FirstDone(e, w0, cb, first', a, o1, cache);
    var done := Do(TransitBy(e, cb), w0, first);
    o := SecondCall(e, done.world, cb, NextTx(first.tx), a, s, s1, s2, x, y, v);
  }
}
