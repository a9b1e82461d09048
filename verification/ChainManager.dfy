/** `monkchain/chain_manager.go`: chains are tested, extend the head, wait in the working tree
    of forks, or re-organise the canonical chain. */
module ChainManager {
  import opened Ledger

  datatype Option<T> = None | Some(value: T)

  /** A `big.Int`: a number that several links may share. */
  class Amount {
    var n: nat

    constructor (n: nat)
      ensures this.n == n
    {
      this.n := n;
    }
  }

  class Link {
    const block: Block
    var td: Amount?
    var parent: Link?

    constructor (block: Block)
      ensures this.block == block
    {
      this.block, this.td, this.parent := block, null, null;
    }
  }

  class Chain {
    var links: seq<Link>

    constructor (links: seq<Link>)
      ensures this.links == links
    {
      this.links := links;
    }
  }

  function Blocks(ls: seq<Link>): (bs: seq<Block>)
    ensures |bs| == |ls| && forall i | 0 <= i < |ls| :: bs[i] == ls[i].block
  {
    if ls == [] then [] else Blocks(ls[..|ls| - 1]) + [ls[|ls| - 1].block]
  }

  /** The place of a block in a chain, or the length. */
  function Find(h: Hasher, ls: seq<Link>, x: Hash): (k: nat)
    ensures k <= |ls| && (k < |ls| ==> Sha(h, ls[k].block) == x)
    ensures k == |ls| ==> forall i | 0 <= i < |ls| :: Sha(h, ls[i].block) != x
  {
    if ls == [] then 0 else if Sha(h, ls[0].block) == x then 0 else 1 + Find(h, ls[1..], x)
  }

  /** The parent of a block is found where it stands in its own chain. */
  lemma {:induction false} FindPrevious(h: Hasher, g: Block, ls: seq<Link>, i: nat)
    requires Digest(h, g) && Consecutive(h, Blocks(ls)) && 0 < i < |ls|
    ensures Find(h, ls, ls[i].block.prev) == i - 1
  {
    var bs, k := Blocks(ls), Find(h, ls, ls[i].block.prev);
    assert bs[i].prev == Sha(h, bs[i - 1]);
    assert Sha(h, ls[i - 1].block) == ls[i].block.prev;
    HashesDiffer(h, g, bs, i - 1, k);
  }

  lemma {:induction false} FindFirstParent(h: Hasher, g: Block, ls: seq<Link>)
    requires Digest(h, g) && Consecutive(h, Blocks(ls)) && ls != []
    ensures Find(h, ls, ls[0].block.prev) == |ls|
  {
    var k := Find(h, ls, ls[0].block.prev);
    if k < |ls| { FirstParentApart(h, g, Blocks(ls), k); }
  }

  lemma {:induction false} LinksDiffer(h: Hasher, g: Block, ls: seq<Link>)
    requires Digest(h, g) && Consecutive(h, Blocks(ls))
    ensures forall i, j | 0 <= i < j < |ls| :: ls[i] != ls[j] && Sha(h, ls[i].block) != Sha(h, ls[j].block)
  {
    forall i, j | 0 <= i < j < |ls|
      ensures ls[i] != ls[j] && Sha(h, ls[i].block) != Sha(h, ls[j].block)
    {
      AgesGrow(h, g, Blocks(ls), i, j);
    }
  }

  /** No other link of the chain is this one or has its hash. */
  predicate Lone(h: Hasher, ls: seq<Link>, i: nat)
    requires i < |ls|
  {
    forall k | 0 <= k < |ls| && k != i :: ls[k] != ls[i] && Sha(h, ls[k].block) != Sha(h, ls[i].block)
  }

  lemma {:induction false} IsLone(h: Hasher, g: Block, ls: seq<Link>, i: nat)
    requires Digest(h, g) && Consecutive(h, Blocks(ls)) && i < |ls|
    ensures Lone(h, ls, i)
  {
    LinksDiffer(h, g, ls);
  }

  /** The first `i` links are in the tree, and the others can be put there. */
  ghost predicate Placed(h: Hasher, tree: map<Hash, Link>, put: set<Link>, ls: seq<Link>, i: nat, unseen: bool)
    requires i <= |ls|
  {
    && (forall k | 0 <= k < i :: Sha(h, ls[k].block) in tree && tree[Sha(h, ls[k].block)] == ls[k])
    && (forall k | i <= k < |ls| :: ls[k] !in put)
    && (unseen ==> forall k | i <= k < |ls| :: Sha(h, ls[k].block) !in tree)
  }

  lemma {:induction false} PlacedStep(h: Hasher, tree: map<Hash, Link>, put: set<Link>, ls: seq<Link>, i: nat, unseen: bool)
    requires i < |ls| && Lone(h, ls, i) && Placed(h, tree, put, ls, i, unseen)
    ensures Placed(h, tree[Sha(h, ls[i].block) := ls[i]], put + {ls[i]}, ls, i + 1, unseen)
  {
  }

  /** `TestChain`: an error, the error that the chain is too light, or success. */
  datatype Verdict = Failed | Light | Passed

  /** The branches of the working tree: for every link ever put there, the blocks that its
      parents lead through, from the first on a stored block to its own. */
  type Trails = map<Link, seq<Block>>

  ghost predicate TrailsOk(h: Hasher, d: Db, trails: Trails) {
    forall l {:trigger TrailOk(h, d, trails[l], l.block)} | l in trails :: TrailOk(h, d, trails[l], l.block)
  }

  ghost predicate TrailOk(h: Hasher, d: Db, t: seq<Block>, b: Block) {
    IsChain(h, t) && t[|t| - 1] == b && t[0].prev in d.blocks
  }

  /** No branch hangs on the block `x`. */
  ghost predicate RootsOff(trails: Trails, x: Hash) {
    forall l | l in trails && trails[l] != [] :: trails[l][0].prev != x
  }

  /** The parents of a link lead through its trail. */
  ghost predicate Follows(trails: Trails, l: Link)
    requires l in trails
    reads l
  {
    && l.td != null
    && (l.parent == null ==> |trails[l]| == 1)
    && (l.parent != null ==> l.parent in trails && trails[l] == trails[l.parent] + [l.block])
  }

  lemma {:induction false} TrailsKept(h: Hasher, d: Db, d': Db, trails: Trails)
    requires TrailsOk(h, d, trails) && Grows(d, d') && d.blocks.Keys == d.infos.Keys
    ensures TrailsOk(h, d', trails)
    ensures forall x | x !in d.blocks :: RootsOff(trails, x)
  {
    forall l | l in trails ensures TrailOk(h, d', trails[l], l.block) && trails[l][0].prev in d.blocks {
      assert TrailOk(h, d, trails[l], l.block);
    }
  }

  lemma {:induction false} TrailAdded(h: Hasher, d: Db, t: seq<Block>, last: Block, b: Block)
    requires b.difficulty > 0
    requires if t == [] then b.prev in d.blocks else TrailOk(h, d, t, last) && b.prev == Sha(h, last)
    ensures TrailOk(h, d, t + [b], b)
  {
    assert t != [] ==> (t + [b])[0] == t[0];
  }

  /** What the working tree has for a branch: the total of its first link and the further
      difficulties. Uncles are left out. */
  function Claimed(first: nat, bs: seq<Block>): nat {
    if |bs| <= 1 then first else Claimed(first, bs[..|bs| - 1]) + bs[|bs| - 1].difficulty
  }

  /** The uncles of all blocks but the first. */
  function LaterUncles(bs: seq<Block>): nat {
    if |bs| <= 1 then 0 else LaterUncles(bs[..|bs| - 1]) + Sum(bs[|bs| - 1].uncles)
  }

  /** How far the claim of a branch is from its true total: it has `first` for the first link
      and no uncles. */
  lemma {:induction false} ClaimGap(first: nat, bs: seq<Block>)
    requires bs != []
    ensures Claimed(first, bs) + Weight(bs[0]) + LaterUncles(bs) == first + Total(bs)
  {
    if |bs| > 1 { ClaimGap(first, bs[..|bs| - 1]); }
  }

  /** A fork of a stored block is judged by its true total in exactly this case. */
  lemma {:induction false} ClaimTrue(parentTd: nat, parent: Block, bs: seq<Block>)
    requires bs != []
    ensures Claimed(parentTd + parent.difficulty, bs) == parentTd + Total(bs)
            <==> parent.difficulty == Weight(bs[0]) + LaterUncles(bs)
  {
    ClaimGap(parentTd + parent.difficulty, bs);
  }

  /** A branch of the working tree: the trail it continues, the total of its first link, and
      whether all of its blocks are new to the tree. */
  datatype Branch = Branch(root: seq<Block>, first: nat, unseen: bool)

  /** The head is stored, and the total is its total and the greatest there is. */
  ghost predicate Settled(h: Hasher, d: Db, head: Block, td: nat) {
    HeadStored(h, d, head) && td == d.infos[Sha(h, head)] && Topped(d, td)
  }

  ghost predicate HeadStored(h: Hasher, d: Db, head: Block) {
    Linked(h, d) && Sha(h, head) in d.blocks && d.blocks[Sha(h, head)] == head
  }

  ghost predicate Topped(d: Db, td: nat) {
    forall x | x in d.infos :: d.infos[x] <= td
  }

  // ---- What the manager knows --------------------------------------------------------------

  type Tree = map<Hash, Link>

  predicate IsKnown(d: Db, tree: Tree, x: Hash) {
    x in d.blocks || x in tree
  }

  /** The block under a known hash. */
  function KnownBlock(d: Db, tree: Tree, x: Hash): Block
    requires IsKnown(d, tree, x)
  {
    if x in d.blocks then d.blocks[x] else tree[x].block
  }

  /** `detectFork`: the parent is known and is not the head. */
  predicate Forks(h: Hasher, d: Db, tree: Tree, head: Block, bs: seq<Block>)
    requires bs != []
  {
    IsKnown(d, tree, bs[0].prev) && bs[0].prev != Sha(h, head)
  }

  /** The blocks of a chain are all new to the working tree. */
  predicate NotInTree(h: Hasher, tree: Tree, bs: seq<Block>) {
    forall i | 0 <= i < |bs| :: Sha(h, bs[i]) !in tree
  }

  /** The parent of the i-th block of the chain under test. */
  function ParentAt(d: Db, tree: Tree, bs: seq<Block>, i: nat): Option<Block>
    requires i < |bs|
  {
    if i > 0 then Some(bs[i - 1])
    else if IsKnown(d, tree, bs[0].prev) then Some(KnownBlock(d, tree, bs[0].prev))
    else None
  }

  /** The verdict of the block processor, at a given time, on a block and its parent. */
  type Processor = (nat, Block, Block) -> bool

  predicate Agrees(p: Processor, time: nat, block: Block, parent: Block) {
    p(time, block, parent)
  }

  predicate Accepted(p: Processor, from: nat, parent: Block, bs: seq<Block>, i: nat)
    requires i < |bs|
  {
    Agrees(p, from + i, bs[i], if i == 0 then parent else bs[i - 1])
  }

  predicate AllAccepted(p: Processor, from: nat, parent: Block, bs: seq<Block>) {
    forall i | 0 <= i < |bs| :: Accepted(p, from, parent, bs, i)
  }

  /** The parent is known and the processor accepts every block. */
  predicate Passes(p: Processor, d: Db, tree: Tree, time: nat, bs: seq<Block>)
    requires bs != []
  {
    var first := ParentAt(d, tree, bs, 0);
    first.Some? && AllAccepted(p, time, first.value, bs)
  }

  // ---- Totals as they are tested ---------------------------------------------------------------

  type Totals = map<Hash, nat>

  /** `CalcTotalDiff` for the i-th block of a chain: the parent's total is looked up in the
      database, then in the working tree, then in the chain itself. */
  function Tested(d: Db, tds: Totals, bs: seq<Block>, i: nat): nat
    requires i < |bs|
  {
    var x := bs[i].prev;
    (if x in d.infos then d.infos[x] else if x in tds then tds[x] else if i > 0 then Tested(d, tds, bs, i - 1) else 0)
    + Weight(bs[i])
  }

  /** The true total of the chain up to its i-th block, on a stored block. */
  function True(d: Db, bs: seq<Block>, i: nat): nat
    requires i < |bs| && bs[0].prev in d.infos
  {
    d.infos[bs[0].prev] + Total(bs[..i + 1])
  }

  /** The i-th block is known to the working tree alone. */
  predicate OnlyInTree(h: Hasher, d: Db, tds: Totals, b: Block) {
    Sha(h, b) in tds && Sha(h, b) !in d.infos
  }

  /** On a stored block the totals are the true ones exactly if the working tree has the true
      total of every block that only it knows and that is not the last. */
  lemma {:induction false} TestedTrue(h: Hasher, d: Db, tds: Totals, bs: seq<Block>)
    requires Linked(h, d) && IsChain(h, bs) && bs[0].prev in d.blocks
    ensures (forall i | 0 <= i < |bs| :: Tested(d, tds, bs, i) == True(d, bs, i)) <==>
            (forall i | 0 <= i < |bs| - 1 && OnlyInTree(h, d, tds, bs[i]) :: tds[Sha(h, bs[i])] == True(d, bs, i))
  {
    if forall i | 0 <= i < |bs| :: Tested(d, tds, bs, i) == True(d, bs, i) {
      forall i | 0 <= i < |bs| - 1 && OnlyInTree(h, d, tds, bs[i]) ensures tds[Sha(h, bs[i])] == True(d, bs, i) {
        TestedStep(h, d, tds, bs, i + 1);
        assert Tested(d, tds, bs, i + 1) == True(d, bs, i + 1);
      }
    }
    if forall i | 0 <= i < |bs| - 1 && OnlyInTree(h, d, tds, bs[i]) :: tds[Sha(h, bs[i])] == True(d, bs, i) {
      forall i | 0 <= i < |bs| ensures Tested(d, tds, bs, i) == True(d, bs, i) { TestedUpTo(h, d, tds, bs, i); }
    }
  }

  lemma {:induction false} TestedStep(h: Hasher, d: Db, tds: Totals, bs: seq<Block>, i: nat)
    requires Linked(h, d) && IsChain(h, bs) && bs[0].prev in d.blocks && i < |bs|
    ensures True(d, bs, i) == (if i == 0 then d.infos[bs[0].prev] else True(d, bs, i - 1)) + Weight(bs[i])
    ensures i > 0 && Sha(h, bs[i - 1]) in d.infos ==> d.infos[Sha(h, bs[i - 1])] == True(d, bs, i - 1)
    ensures i > 0 ==> bs[i].prev == Sha(h, bs[i - 1])
  {
    TotalStep(bs, i);
    if i > 0 && Sha(h, bs[i - 1]) in d.infos { StoredTotal(h, d, bs, i - 1); }
  }

  lemma {:induction false} TestedUpTo(h: Hasher, d: Db, tds: Totals, bs: seq<Block>, i: nat)
    requires Linked(h, d) && IsChain(h, bs) && bs[0].prev in d.blocks && i < |bs|
    requires forall k | 0 <= k < |bs| - 1 && OnlyInTree(h, d, tds, bs[k]) :: tds[Sha(h, bs[k])] == True(d, bs, k)
    ensures Tested(d, tds, bs, i) == True(d, bs, i)
  {
    TestedStep(h, d, tds, bs, i);
    if i > 0 { TestedUpTo(h, d, tds, bs, i - 1); }
  }

  /** On a block that only the working tree has, a chain that is new to the tree has the total
      that the tree has for the block, and its own. */
  lemma {:induction false} TestedFork(h: Hasher, d: Db, tds: Totals, bs: seq<Block>, i: nat)
    requires Linked(h, d) && IsChain(h, bs) && i < |bs|
    requires bs[0].prev in tds && bs[0].prev !in d.infos && bs[0].prev != d.genesis.prev
    requires forall k | 0 <= k < |bs| :: Sha(h, bs[k]) !in tds
    ensures Tested(d, tds, bs, i) == tds[bs[0].prev] + Total(bs[..i + 1])
  {
    TotalStep(bs, i);
    if i > 0 {
      TestedFork(h, d, tds, bs, i - 1);
      NotStored(h, d, bs, i - 1);
      assert bs[i].prev == Sha(h, bs[i - 1]);
    }
  }

  /** Only blocks with stored parents are stored. */
  lemma {:induction false} NotStored(h: Hasher, d: Db, bs: seq<Block>, i: nat)
    requires Linked(h, d) && IsChain(h, bs) && bs[0].prev !in d.infos && bs[0].prev != d.genesis.prev && i < |bs|
    ensures Sha(h, bs[i]) !in d.infos
  {
    if i > 0 {
      assert bs[i].prev == Sha(h, bs[i - 1]);
      NotStored(h, d, bs, i - 1);
    }
    if Sha(h, bs[i]) in d.infos { StoredHasParent(h, d, bs[i]); }
  }

  lemma {:induction false} StoredHasParent(h: Hasher, d: Db, b: Block)
    requires Linked(h, d) && Sha(h, b) in d.infos && b.prev != d.genesis.prev
    ensures b.prev in d.infos
  {
    assert LinkedAt(h, d, Sha(h, b));
  }

  /** The i-th link has the total that was tested. */
  ghost predicate TestedAt(d: Db, tds: Totals, ls: seq<Link>, i: nat)
    requires i < |ls|
    reads ls[i], ls[i].td
  {
    ls[i].td != null && ls[i].td.n == Tested(d, tds, Blocks(ls), i)
  }

  /** The i-th link has the true total of the chain up to it. */
  ghost predicate WeighedAt(d: Db, ls: seq<Link>, i: nat)
    requires i < |ls| && ls[0].block.prev in d.infos
    reads ls[i], ls[i].td
  {
    ls[i].td != null && ls[i].td.n == True(d, Blocks(ls), i)
  }

  /** The first `i` blocks of the chain are added. */
  ghost predicate Lengthened(h: Hasher, d: Db, bs: seq<Block>, i: nat, d': Db) {
    i <= |bs| && IsChain(h, bs) && bs[0].prev in d.infos && d' == AddAll(h, d, bs[..i])
  }

  lemma {:induction false} LengthenedEnds(h: Hasher, d: Db, bs: seq<Block>)
    requires IsChain(h, bs) && bs[0].prev in d.infos
    ensures Lengthened(h, d, bs, 0, d)
    ensures bs[..|bs|] == bs
  {
  }

  /** What `reOrg` asks of the branch `t`: that it passes once more on its stored root, and that
      its true total is greater. */
  predicate Overtakes(p: Processor, d: Db, td: nat, time: nat, t: seq<Block>) {
    && t != [] && t[0].prev in d.blocks && t[0].prev in d.infos
    && AllAccepted(p, time, d.blocks[t[0].prev], t)
    && d.infos[t[0].prev] + Total(t) > td
  }

  /** What becomes of a fork that passes the first test: it is taken if the total that the
      working tree has for it, and its true total, are greater than the head's, and if all of
      the branch passes once more. */
  predicate Taken(p: Processor, d: Db, td: nat, time: nat, claim: nat, t: seq<Block>) {
    claim > td && Overtakes(p, d, td, time, t)
  }

  ghost predicate Weighed(d: Db, ls: seq<Link>)
    reads ls, set l | l in ls && l.td != null :: l.td
  {
    ls != [] && ls[0].block.prev in d.infos && forall i | 0 <= i < |ls| :: WeighedAt(d, ls, i)
  }

  class Manager {
    const h: Hasher
    const accepts: Processor
    var db: Db
    var td: Amount
    var head: Block
    var workingTree: Tree
    var workingChain: Chain?
    var clock: nat
    ghost var trails: Trails

    ghost predicate TreeOk()
      reads `db, `trails, `workingTree, trails.Keys
    {
      && TrailsOk(h, db, trails)
      && (forall x | x in workingTree :: workingTree[x] in trails && Sha(h, workingTree[x].block) == x)
      && (forall l {:trigger Follows(trails, l)} | l in trails :: Follows(trails, l))
    }

    ghost predicate Valid()
      reads this, td, trails.Keys
    {
      && Settled(h, db, head, td.n) && TreeOk() && RootsOff(trails, Sha(h, head))
      && workingChain == null
    }

    /** Links of a chain that comes in are not in use. */
    ghost predicate Incoming(chain: Chain)
      reads `trails, chain
    {
      IsChain(h, Blocks(chain.links)) && forall l | l in chain.links :: l !in trails
    }

    constructor (h: Hasher, accepts: Processor, genesis: Block)
      requires Digest(h, genesis)
      ensures Valid() && head == genesis && td.n == 0 && this.h == h && this.accepts == accepts && workingTree == map[]
      ensures db == Db(genesis, map[Sha(h, genesis) := genesis], map[Sha(h, genesis) := 0])
    {
      this.h, this.accepts := h, accepts;
      this.db := Db(genesis, map[Sha(h, genesis) := genesis], map[Sha(h, genesis) := 0]);
      this.td := new Amount(0);
      this.head, this.workingTree, this.workingChain, this.clock := genesis, map[], null, 0;
      this.trails := map[];
      new;
      assert LinkedAt(h, db, Sha(h, genesis));
    }

    // ---- Looking up ------------------------------------------------------------------------

    function GetBlock(x: Hash): Option<Block>
      reads `db, `workingTree, `workingChain, workingChain
    {
      if x in db.blocks then Some(db.blocks[x])
      else if x in workingTree then Some(workingTree[x].block)
      else if workingChain == null then None
      else
        var k := Find(h, workingChain.links, x);
        if k < |workingChain.links| then Some(workingChain.links[k].block) else None
    }

    /** The totals of the working tree. */
    ghost function TreeTotals(): Totals
      reads `workingTree, workingTree.Values, set l | l in workingTree.Values && l.td != null :: l.td
    {
      map x | x in workingTree :: if workingTree[x].td == null then 0 else workingTree[x].td.n
    }

    /** The chain `ls` is under test. */
    ghost predicate Testing(ls: seq<Link>, tds: Totals)
      reads `db, `trails, `workingTree, `workingChain, trails.Keys, workingChain,
            workingTree.Values, set l | l in workingTree.Values && l.td != null :: l.td
    {
      && TreeOk() && Linked(h, db) && tds == TreeTotals()
      && workingChain != null && workingChain.links == ls
      && IsChain(h, Blocks(ls)) && forall l | l in ls :: l !in trails
    }

    lemma {:induction false} ParentFound(ls: seq<Link>, i: nat, tds: Totals)
      requires Testing(ls, tds) && i < |ls|
      ensures GetBlock(ls[i].block.prev) == ParentAt(db, workingTree, Blocks(ls), i)
    {
      var x, bs := ls[i].block.prev, Blocks(ls);
      if i > 0 {
        assert bs[i].prev == Sha(h, bs[i - 1]);
        if x in db.blocks { assert LinkedAt(h, db, x); }
        FindPrevious(h, db.genesis, ls, i);
      } else {
        FindFirstParent(h, db.genesis, ls);
      }
    }

    // ---- Testing ---------------------------------------------------------------------------

    /** `CalcTotalDiff`, for the i-th block of the chain under test. */
    method CalcTotalDiff(ls: seq<Link>, i: nat, ghost tds: Totals) returns (total: nat)
      requires Testing(ls, tds) && i < |ls| && ParentAt(db, workingTree, Blocks(ls), 0).Some?
      requires i > 0 ==> TestedAt(db, tds, ls, i - 1)
      ensures total == Tested(db, tds, Blocks(ls), i)
    {
      var x := ls[i].block.prev;
      var base: nat;
      if x in db.infos {
        base := db.infos[x];
      } else if x in workingTree {
        assert Follows(trails, workingTree[x]);
        base := workingTree[x].td.n;
      } else {
        FindPrevious(h, db.genesis, ls, i);
        base := ls[Find(h, ls, x)].td.n;
      }
      total := base + Weight(ls[i].block);
    }

    /** The i-th block is processed on its parent. */
    method ProcessBlock(ls: seq<Link>, i: nat, ghost tds: Totals, ghost first: Option<Block>) returns (ok: bool)
      requires Testing(ls, tds) && i < |ls| && first == ParentAt(db, workingTree, Blocks(ls), 0)
      requires i > 0 ==> TestedAt(db, tds, ls, i - 1) && first.Some?
      modifies `clock, ls[i]
      ensures ok ==> clock == old(clock) + 1
      ensures ok <==> first.Some? && Agrees(accepts, old(clock), ls[i].block, if i == 0 then first.value else ls[i - 1].block)
      ensures ok ==> TestedAt(db, tds, ls, i)
    {
      ParentFound(ls, i, tds);
      var parent := GetBlock(ls[i].block.prev);
      if parent == None { return false; }
      ok := Agrees(accepts, clock, ls[i].block, parent.value);
      clock := clock + 1;
      if !ok { return; }
      var total := CalcTotalDiff(ls, i, tds);
      ls[i].td := new Amount(total);
    }

    /** The first `i` blocks are processed. */
    ghost predicate Processed(ls: seq<Link>, i: nat, tds: Totals, first: Option<Block>, from: nat)
      requires i <= |ls|
      reads `db, `clock, ls, set l | l in ls && l.td != null :: l.td
    {
      && clock == from + i
      && (i > 0 ==> first.Some? && forall k | 0 <= k < i :: Accepted(accepts, from, first.value, Blocks(ls), k))
      && (forall k | 0 <= k < i :: TestedAt(db, tds, ls, k))
    }

    method ProcessOne(ls: seq<Link>, i: nat, ghost tds: Totals, ghost first: Option<Block>, ghost from: nat)
      returns (ok: bool)
      requires Testing(ls, tds) && i < |ls|
      requires first == ParentAt(db, workingTree, Blocks(ls), 0) && Processed(ls, i, tds, first, from)
      modifies `clock, ls[i]
      ensures Testing(ls, tds)
      ensures ok ==> Processed(ls, i + 1, tds, first, from)
      ensures !ok ==> !(first.Some? && Accepted(accepts, from, first.value, Blocks(ls), i))
    {
      IsLone(h, db.genesis, ls, i);
      ok := ProcessNext(ls, i, tds, first);
    }

    /** The chain is still under test. */
    method ProcessNext(ls: seq<Link>, i: nat, ghost tds: Totals, ghost first: Option<Block>) returns (ok: bool)
      requires Testing(ls, tds) && i < |ls| && first == ParentAt(db, workingTree, Blocks(ls), 0)
      requires i > 0 ==> TestedAt(db, tds, ls, i - 1) && first.Some?
      modifies `clock, ls[i]
      ensures Testing(ls, tds)
      ensures ok ==> clock == old(clock) + 1 && TestedAt(db, tds, ls, i)
      ensures ok <==> first.Some? && Agrees(accepts, old(clock), ls[i].block, if i == 0 then first.value else ls[i - 1].block)
    {
      ok := ProcessBlock(ls, i, tds, first);
    }

    /** The loop of `TestChain`. */
    method ProcessAll(ls: seq<Link>, ghost tds: Totals, ghost first: Option<Block>) returns (ok: bool)
      requires Testing(ls, tds) && first == ParentAt(db, workingTree, Blocks(ls), 0)
      modifies `clock, ls
      ensures Testing(ls, tds)
      ensures ok ==> Processed(ls, |ls|, tds, first, old(clock))
      ensures ok <==> first.Some? && AllAccepted(accepts, old(clock), first.value, Blocks(ls))
    {
      ghost var from := clock;
      for i := 0 to |ls|
        invariant Testing(ls, tds) && Processed(ls, i, tds, first, from)
      {
        var fine := ProcessOne(ls, i, tds, first, from);
        if !fine { return false; }
      }
      return true;
    }

    // ---- The working tree ---------------------------------------------------------------------

    /** The trail a new link gets under the parent `p`. */
    ghost function TrailUnder(p: Link?, b: Block): seq<Block>
      requires p != null ==> p in trails
      reads `trails
    {
      (if p == null then [] else trails[p]) + [b]
    }

    /** A link is put in the tree under its parent; its total goes to the shared number. */
    method Attach(l: Link, p: Link?, base: Amount, total: nat)
      requires TreeOk() && l !in trails && l.block.difficulty > 0
      requires p != null ==> p in trails && l.block.prev == Sha(h, p.block)
      requires p == null ==> l.block.prev in db.blocks
      modifies `workingTree, `trails, l, base
      ensures TreeOk()
      ensures trails == old(trails)[l := old(TrailUnder(p, l.block))]
      ensures workingTree == old(workingTree)[Sha(h, l.block) := l]
      ensures l.td == base && base.n == total && l.parent == p
    {
      ghost var t := if p == null then [] else trails[p];
      if p != null { assert TrailOk(h, db, trails[p], p.block); }
      TrailAdded(h, db, t, if p == null then l.block else p.block, l.block);
      base.n := total;
      l.parent, l.td := p, base;
      ghost var before := trails;
      trails := trails[l := t + [l.block]];
      workingTree := workingTree[Sha(h, l.block) := l];
      assert TrailsOk(h, db, trails) by {
        forall m | m in trails ensures TrailOk(h, db, trails[m], m.block) {
          if m != l { assert TrailOk(h, db, before[m], m.block); }
        }
      }
      forall m | m in trails ensures Follows(trails, m) {
        if m != l { assert Follows(before, m); }
      }
    }

    /** The trail that a branch from `x` continues. */
    ghost function RootOf(x: Hash): seq<Block>
      requires TreeOk()
      reads `db, `trails, `workingTree, trails.Keys
    {
      if x in workingTree then trails[workingTree[x]] else []
    }

    /** The total of the first link of a branch: on a stored block, that block's own difficulty
        is counted instead of the link's. */
    ghost function FirstClaim(b: Block): nat
      requires TreeOk() && Linked(h, db) && IsKnown(db, workingTree, b.prev)
      reads `db, `trails, `workingTree, trails.Keys, set l | l in trails && l.td != null :: l.td
    {
      if b.prev in workingTree then
        assert Follows(trails, workingTree[b.prev]);
        workingTree[b.prev].td.n + b.difficulty
      else db.infos[b.prev] + db.blocks[b.prev].difficulty
    }

    /** `branch` is what the tree will have of the chain. */
    ghost predicate IsBranch(branch: Branch, bs: seq<Block>)
      requires TreeOk() && Linked(h, db) && bs != []
      reads `db, `trails, `workingTree, trails.Keys, set l | l in trails && l.td != null :: l.td
    {
      && IsKnown(db, workingTree, bs[0].prev)
      && branch == Branch(RootOf(bs[0].prev), FirstClaim(bs[0]), NotInTree(h, workingTree, bs))
    }

    /** The first link of a branch. */
    method AttachFirst(l: Link, base: Amount, ghost off: Hash)
      requires TreeOk() && Linked(h, db) && l !in trails && l.block.difficulty > 0 && IsKnown(db, workingTree, l.block.prev)
      requires RootsOff(trails, off) && off != l.block.prev
      modifies `workingTree, `trails, l, base
      ensures TreeOk() && RootsOff(trails, off)
      ensures trails == old(trails)[l := old(RootOf(l.block.prev)) + [l.block]]
      ensures workingTree == old(workingTree)[Sha(h, l.block) := l]
      ensures l.td == base && base.n == old(FirstClaim(l.block))
    {
      var x := l.block.prev;
      if x in workingTree {
        var p := workingTree[x];
        assert Follows(trails, p) && TrailOk(h, db, trails[p], p.block);
        Attach(l, p, base, p.td.n + l.block.difficulty);
      } else {
        Attach(l, null, base, db.infos[x] + db.blocks[x].difficulty);
      }
    }

    /** The first `i` links hang on `root` in the tree and share the number `base`. */
    ghost predicate Hung(ls: seq<Link>, i: nat, base: Amount, branch: Branch)
      requires 0 < i <= |ls|
      reads `trails, base
    {
      && ls[i - 1] in trails && trails[ls[i - 1]] == branch.root + Blocks(ls)[..i]
      && base.n == Claimed(branch.first, Blocks(ls)[..i])
    }

    /** A further link of a branch, under the one before it. */
    method AttachNext(ls: seq<Link>, i: nat, base: Amount, ghost branch: Branch, ghost off: Hash)
      requires TreeOk() && IsChain(h, Blocks(ls)) && 0 < i < |ls|
      requires ls[i] !in trails && Hung(ls, i, base, branch)
      requires ls[i - 1].td == base && RootsOff(trails, off)
      modifies `workingTree, `trails, ls[i], base
      ensures TreeOk() && RootsOff(trails, off) && Hung(ls, i + 1, base, branch)
      ensures trails.Keys == old(trails.Keys) + {ls[i]}
      ensures workingTree == old(workingTree)[Sha(h, ls[i].block) := ls[i]]
      ensures ls[i].td == base
    {
      var l, p := ls[i], ls[i - 1];
      ghost var bs := Blocks(ls);
      assert bs[i].prev == Sha(h, bs[i - 1]);
      Snoc(branch.root, bs, i);
      Attach(l, p, base, p.td.n + l.block.difficulty);
    }

    lemma {:induction false} Snoc(root: seq<Block>, bs: seq<Block>, i: nat)
      requires 0 < i < |bs|
      ensures root + bs[..i + 1] == root + bs[..i] + [bs[i]] && (root + bs[..i])[0] == (root + bs[..i + 1])[0]
      ensures forall first :: Claimed(first, bs[..i + 1]) == Claimed(first, bs[..i]) + bs[i].difficulty
    {
      assert bs[..i + 1][..i] == bs[..i];
    }

    /** The loop of `addChainToWorkingTree` after the first link. At a block that the tree has
        already it ends: the element it has just removed has no successor. */
    method AttachRest(chain: Chain, base: Amount, ghost branch: Branch, ghost off: Hash)
      requires Linked(h, db) && IsChain(h, Blocks(chain.links))
      requires Attaching(chain.links, 1, base, branch, off)
      modifies `workingTree, `trails, chain, chain.links, base
      ensures TreeOk() && RootsOff(trails, off) && IsKnown(db, workingTree, old(chain.links)[0].block.prev)
      ensures branch.unseen ==> Added(chain, old(chain.links), branch)
    {
      var ls := chain.links;
      var i := AttachUnseen(ls, base, branch, off);
      if i < |ls| { chain.links := ls[..i] + ls[i + 1..]; }
    }

    method AttachUnseen(ls: seq<Link>, base: Amount, ghost branch: Branch, ghost off: Hash) returns (i: nat)
      requires ls != [] && Linked(h, db) && IsChain(h, Blocks(ls)) && Attaching(ls, 1, base, branch, off)
      modifies `workingTree, `trails, ls, base
      ensures 0 < i <= |ls| && Attaching(ls, i, base, branch, off) && (branch.unseen ==> i == |ls|)
    {
      i := 1;
      var more := true;
      while i < |ls| && more
        invariant 1 <= i <= |ls| && Attaching(ls, i, base, branch, off) && (!more ==> !branch.unseen)
        decreases |ls| - i, more
      {
        more := AttachUnless(ls, i, base, branch, off);
        if more { i := i + 1; }
      }
    }

    method AttachUnless(ls: seq<Link>, i: nat, base: Amount, ghost branch: Branch, ghost off: Hash) returns (more: bool)
      requires 0 < i < |ls| && Linked(h, db) && IsChain(h, Blocks(ls)) && Attaching(ls, i, base, branch, off)
      modifies `workingTree, `trails, ls[i], base
      ensures if more then Attaching(ls, i + 1, base, branch, off) else Attaching(ls, i, base, branch, off) && !branch.unseen
    {
      more := Sha(h, ls[i].block) !in workingTree;
      if more { AttachOne(ls, i, base, branch, off); }
    }

    /** The working tree has the link for its block. */
    ghost predicate InTree(l: Link)
      reads `workingTree
    {
      Sha(h, l.block) in workingTree && workingTree[Sha(h, l.block)] == l
    }

    ghost predicate Attaching(ls: seq<Link>, i: nat, base: Amount, branch: Branch, off: Hash)
      requires 0 < i <= |ls|
      reads `db, `trails, `workingTree, trails.Keys, base, ls
    {
      && TreeOk() && RootsOff(trails, off) && Hung(ls, i, base, branch)
      && IsKnown(db, workingTree, ls[0].block.prev)
      && (forall k | 0 <= k < i :: ls[k].td == base) && Placed(h, workingTree, trails.Keys, ls, i, branch.unseen)
    }

    method AttachOne(ls: seq<Link>, i: nat, base: Amount,
                     ghost branch: Branch, ghost off: Hash)
      requires 0 < i < |ls| && Linked(h, db) && IsChain(h, Blocks(ls))
      requires Attaching(ls, i, base, branch, off)
      modifies `workingTree, `trails, ls[i], base
      ensures Attaching(ls, i + 1, base, branch, off)
    {
      IsLone(h, db.genesis, ls, i);
      PlacedStep(h, workingTree, trails.Keys, ls, i, branch.unseen);
      AttachNext(ls, i, base, branch, off);
    }

    /** `addChainToWorkingTree`: all new links share one number for their total. */
    method AddChainToWorkingTree(chain: Chain, ghost branch: Branch, ghost off: Hash)
      requires TreeOk() && Linked(h, db) && Incoming(chain) && IsBranch(branch, Blocks(chain.links))
      requires RootsOff(trails, off) && off != chain.links[0].block.prev
      modifies `workingTree, `trails, chain, chain.links
      ensures TreeOk() && RootsOff(trails, off) && IsKnown(db, workingTree, old(chain.links)[0].block.prev)
      ensures branch.unseen ==> Added(chain, old(chain.links), branch)
    {
      var ls := chain.links;
      if Sha(h, ls[0].block) in workingTree {
        chain.links := ls[1..];
        return;
      }
      var base := new Amount(0);
      AttachStart(ls, base, branch, off);
      AttachRest(chain, base, branch, off);
    }

    method AttachStart(ls: seq<Link>, base: Amount,
                       ghost branch: Branch, ghost off: Hash)
      requires TreeOk() && Linked(h, db) && IsChain(h, Blocks(ls)) && (forall l | l in ls :: l !in trails)
      requires IsBranch(branch, Blocks(ls)) && RootsOff(trails, off) && off != ls[0].block.prev
      modifies `workingTree, `trails, ls[0], base
      ensures Attaching(ls, 1, base, branch, off)
    {
      IsLone(h, db.genesis, ls, 0);
      assert Placed(h, workingTree, trails.Keys, ls, 0, branch.unseen);
      PlacedStep(h, workingTree, trails.Keys, ls, 0, branch.unseen);
      AttachFirst(ls[0], base, off);
      assert Blocks(ls)[..1] == [ls[0].block];
    }

    /** A whole chain is in the tree. */
    ghost predicate Added(chain: Chain, ls: seq<Link>, branch: Branch)
      reads `trails, `workingTree, chain, ls, set l | l in ls && l.td != null :: l.td
    {
      && chain.links == ls != []
      && (forall i | 0 <= i < |ls| :: ls[i].td == ls[|ls| - 1].td != null && InTree(ls[i]))
      && Hung(ls, |ls|, ls[|ls| - 1].td, branch)
    }

    /** All links have the totals that were tested. */
    ghost predicate AllTested(ls: seq<Link>, tds: Totals)
      reads `db, ls, set l | l in ls && l.td != null :: l.td
    {
      forall i | 0 <= i < |ls| :: TestedAt(db, tds, ls, i)
    }

    /** The first part of `TestChain`: the fork is detected and the blocks are processed. */
    method ProcessChain(chain: Chain, ghost bs: seq<Block>, ghost tds: Totals)
      returns (ok: bool, fork: bool, total: nat)
      requires TreeOk() && Linked(h, db) && Incoming(chain)
      requires bs == Blocks(chain.links) && tds == TreeTotals()
      modifies `clock, `workingChain, chain.links
      ensures workingChain == null
      ensures ok <==> Passes(accepts, db, workingTree, old(clock), bs)
      ensures fork <==> Forks(h, db, workingTree, head, bs)
      ensures ok ==> clock == old(clock) + |bs|
      ensures ok ==> AllTested(chain.links, tds) && total == Tested(db, tds, bs, |bs| - 1)
    {
      var ls := chain.links;
      ghost var first := ParentAt(db, workingTree, bs, 0);
      workingChain := chain;
      assert Testing(ls, tds);
      ok, fork, total := RunTest(ls, bs, tds, first);
      workingChain := null;
    }

    method RunTest(ls: seq<Link>, ghost bs: seq<Block>, ghost tds: Totals, ghost first: Option<Block>)
      returns (ok: bool, fork: bool, total: nat)
      requires Testing(ls, tds) && bs == Blocks(ls) && first == ParentAt(db, workingTree, bs, 0)
      modifies `clock, ls
      ensures fork <==> Forks(h, db, workingTree, head, bs)
      ensures ok <==> first.Some? && AllAccepted(accepts, old(clock), first.value, bs)
      ensures ok ==> clock == old(clock) + |bs| && AllTested(ls, tds) && total == Tested(db, tds, bs, |bs| - 1)
    {
      fork := DetectFork(ls, tds);
      ok, total := ProcessTotal(ls, bs, tds, first);
    }

    method ProcessTotal(ls: seq<Link>, ghost bs: seq<Block>, ghost tds: Totals, ghost first: Option<Block>)
      returns (ok: bool, total: nat)
      requires Testing(ls, tds) && bs == Blocks(ls) && first == ParentAt(db, workingTree, bs, 0)
      modifies `clock, ls
      ensures ok <==> first.Some? && AllAccepted(accepts, old(clock), first.value, bs)
      ensures ok ==> clock == old(clock) + |bs| && AllTested(ls, tds) && total == Tested(db, tds, bs, |bs| - 1)
    {
      ok := ProcessAll(ls, tds, first);
      total := if ok then LastTotal(ls, tds) else 0;
    }

    function LastTotal(ls: seq<Link>, ghost tds: Totals): (total: nat)
      requires ls != [] && AllTested(ls, tds)
      reads `db, ls, set l | l in ls && l.td != null :: l.td
      ensures total == Tested(db, tds, Blocks(ls), |ls| - 1)
    {
      assert TestedAt(db, tds, ls, |ls| - 1);
      ls[|ls| - 1].td.n
    }

    method DetectFork(ls: seq<Link>, ghost tds: Totals) returns (fork: bool)
      requires Testing(ls, tds)
      ensures fork <==> Forks(h, db, workingTree, head, Blocks(ls))
    {
      var x := ls[0].block.prev;
      ParentFound(ls, 0, tds);
      HashFound(x);
      var branchParent := GetBlock(x);
      fork := branchParent.Some? && Sha(h, branchParent.value) != Sha(h, head);
    }

    /** `TestChain`: the verdict is by the total that is tested for the last block. */
    method TestChain(chain: Chain, ghost bs: seq<Block>, ghost tds: Totals, ghost branch: Branch) returns (v: Verdict)
      requires TreeOk() && Linked(h, db) && Incoming(chain)
      requires bs == Blocks(chain.links) && tds == TreeTotals()
      requires Forks(h, db, workingTree, head, bs) ==> RootsOff(trails, Sha(h, head)) && IsBranch(branch, bs)
      modifies `clock, `workingChain, `workingTree, `trails, chain, chain.links
      ensures TreeOk() && workingChain == null
      ensures v.Failed? <==> !Passes(accepts, db, old(workingTree), old(clock), bs)
      ensures !v.Failed? ==> clock == old(clock) + |bs|
      ensures v.Failed? || !Forks(h, db, old(workingTree), head, bs) ==>
                trails == old(trails) && workingTree == old(workingTree) && chain.links == old(chain.links)
      ensures Forks(h, db, old(workingTree), head, bs) ==>
                RootsOff(trails, Sha(h, head)) && IsKnown(db, workingTree, bs[0].prev)
      ensures !v.Failed? ==> (v.Passed? <==> Tested(db, tds, bs, |bs| - 1) > td.n)
      ensures !v.Failed? && !Forks(h, db, old(workingTree), head, bs) ==> AllTested(chain.links, tds)
      ensures !v.Failed? && Forks(h, db, old(workingTree), head, bs) && branch.unseen ==>
                Added(chain, old(chain.links), branch)
    {
      var ok, fork, total := ProcessChain(chain, bs, tds);
      assert td.n == old(td.n) && chain.links == old(chain.links);
      if !ok { return Failed; }
      v := Judge(chain, tds, branch, fork, total);
    }

    /** The last part of `TestChain`: a fork goes to the working tree, and the total decides. */
    method Judge(chain: Chain, ghost tds: Totals, ghost branch: Branch, fork: bool, total: nat) returns (v: Verdict)
      requires TreeOk() && Linked(h, db) && Incoming(chain) && AllTested(chain.links, tds)
      requires fork ==> RootsOff(trails, Sha(h, head)) && Sha(h, head) != chain.links[0].block.prev
                        && IsBranch(branch, Blocks(chain.links))
      modifies `workingTree, `trails, chain, chain.links
      ensures TreeOk() && !v.Failed? && (v.Passed? <==> total > td.n)
      ensures !fork ==> trails == old(trails) && workingTree == old(workingTree) && chain.links == old(chain.links)
      ensures !fork ==> AllTested(chain.links, tds)
      ensures fork ==> RootsOff(trails, Sha(h, head)) && IsKnown(db, workingTree, old(chain.links)[0].block.prev)
      ensures fork && branch.unseen ==> Added(chain, old(chain.links), branch)
    {
      if fork { AddChainToWorkingTree(chain, branch, Sha(h, head)); }
      return if total <= td.n then Light else Passed;
    }

    lemma {:induction false} HashFound(x: Hash)
      requires TreeOk() && Linked(h, db)
      ensures IsKnown(db, workingTree, x) ==> Sha(h, KnownBlock(db, workingTree, x)) == x
    {
      if x in db.blocks { assert LinkedAt(h, db, x); }
    }

    // ---- Inserting ---------------------------------------------------------------------------

    /** A step of `insertChain`: the total is set and the block added. */
    method AddBlock(ls: seq<Link>, i: nat, ghost d: Db, ghost bs: seq<Block>)
      requires Linked(h, d) && bs == Blocks(ls) && IsChain(h, bs) && bs[0].prev in d.blocks
      requires i < |ls| && WeighedAt(d, ls, i) && Lengthened(h, d, bs, i, db)
      modifies `td, `db, `head
      ensures Lengthened(h, d, bs, i + 1, db) && head == bs[i] && td == ls[i].td
    {
      AddStep(h, d, bs, i);
      var x, l := Sha(h, ls[i].block), ls[i];
      td := l.td;
      db := db.(blocks := db.blocks[x := l.block], infos := db.infos[x := td.n]);
      head := l.block;
    }

    /** `insertChain`: every block is added, with the total of its link. */
    method Lengthen(ls: seq<Link>, ghost bs: seq<Block>)
      requires Linked(h, db) && bs == Blocks(ls) && IsChain(h, bs) && bs[0].prev in db.blocks && Weighed(db, ls)
      modifies `td, `db, `head
      ensures db == AddAll(h, old(db), bs) && head == bs[|bs| - 1]
      ensures td.n == old(db).infos[bs[0].prev] + Total(bs)
    {
      LengthenedEnds(h, db, bs);
      LastWeighed(db, ls, bs);
      AddBlocks(ls, bs, db);
    }

    /** The first `i` links are stored. */
    ghost predicate Adding(ls: seq<Link>, i: nat, bs: seq<Block>, d: Db)
      reads `td, `db, `head, ls, set l | l in ls && l.td != null :: l.td
    {
      && Linked(h, d) && bs == Blocks(ls) && IsChain(h, bs) && bs[0].prev in d.blocks && Weighed(d, ls)
      && Lengthened(h, d, bs, i, db) && (i > 0 ==> head == bs[i - 1] && td == ls[i - 1].td)
    }

    method AddBlocks(ls: seq<Link>, ghost bs: seq<Block>, ghost d: Db)
      requires Adding(ls, 0, bs, d)
      modifies `td, `db, `head
      ensures Adding(ls, |ls|, bs, d)
    {
      for i := 0 to |ls|
        invariant Adding(ls, i, bs, d)
      {
        AddNext(ls, i, bs, d);
      }
    }

    method AddNext(ls: seq<Link>, i: nat, ghost bs: seq<Block>, ghost d: Db)
      requires i < |ls| && Adding(ls, i, bs, d)
      modifies `td, `db, `head
      ensures Adding(ls, i + 1, bs, d)
    {
      assert WeighedAt(d, ls, i);
      AddBlock(ls, i, d, bs);
    }

    lemma {:induction false} LastWeighed(d: Db, ls: seq<Link>, bs: seq<Block>)
      requires Weighed(d, ls) && bs == Blocks(ls)
      ensures ls[|ls| - 1].td != null && ls[|ls| - 1].td.n == d.infos[bs[0].prev] + Total(bs)
    {
      assert WeighedAt(d, ls, |ls| - 1);
      assert bs[..|bs|] == bs;
    }

    /** A chain on the head, heavier than all that is stored. */
    method ExtendHead(ls: seq<Link>, ghost bs: seq<Block>)
      requires TreeOk() && Linked(h, db) && Topped(db, td.n) && workingChain == null
      requires bs == Blocks(ls) && IsChain(h, bs) && bs[0].prev in db.blocks && Weighed(db, ls)
      requires db.infos[bs[0].prev] + Total(bs) > td.n
      modifies `td, `db, `head
      ensures Valid() && db == AddAll(h, old(db), bs) && head == bs[|bs| - 1]
      ensures td.n == old(db).infos[bs[0].prev] + Total(bs)
    {
      ghost var d := db;
      NewTop(h, d, bs, td.n);
      Lengthen(ls, bs);
      TrailsKept(h, d, db, trails);
    }

    /** The first loop of `reOrg`: the parents of a link lead back to the branch point, and their
        blocks leave the working tree. */
    method PopBranch(last: Link) returns (bchain: Chain)
      requires TreeOk() && last in trails
      modifies `workingTree
      ensures TreeOk() && fresh(bchain) && Blocks(bchain.links) == trails[last]
      ensures fresh(bchain.links)
      ensures NotInTree(h, workingTree, trails[last])
    {
      var ls: seq<Link> := [];
      var l: Link? := last;
      ghost var left := trails[last];
      while l != null
        invariant TreeOk() && fresh(ls)
        invariant if l == null then left == [] else l in trails && left == trails[l]
        invariant Popped(trails[last], left, ls, workingTree)
        decreases |left|
      {
        assert Follows(trails, l) && TrailOk(h, db, trails[l], l.block);
        var copy := new Link(l.block);
        PopOne(trails[last], left, ls, workingTree, copy);
        workingTree := workingTree - {Sha(h, l.block)};
        left, ls, l := left[..|left| - 1], [copy] + ls, l.parent;
      }
      bchain := new Chain(ls);
    }

    /** All but `left` of a trail is in the chain and out of the tree. */
    ghost predicate Popped(t: seq<Block>, left: seq<Block>, ls: seq<Link>, tree: Tree) {
      t == left + Blocks(ls) && NotInTree(h, tree, Blocks(ls))
    }

    lemma {:induction false} PopOne(t: seq<Block>, left: seq<Block>, ls: seq<Link>, tree: Tree, copy: Link)
      requires Popped(t, left, ls, tree) && left != [] && copy.block == left[|left| - 1]
      ensures Popped(t, left[..|left| - 1], [copy] + ls, tree - {Sha(h, copy.block)})
    {
      PushFront(copy, ls);
      assert left == left[..|left| - 1] + [copy.block];
    }

    lemma {:induction false} PushFront(l: Link, ls: seq<Link>)
      ensures Blocks([l] + ls) == [l.block] + Blocks(ls)
    {
    }

    /** Genesis is the only stored block whose parent is not found. */
    lemma {:induction false} StepBack(b: Block)
      requires TreeOk() && HeadStored(h, db, b) && workingChain == null
      ensures if b == db.genesis then GetBlock(b.prev) == None
              else b.prev in db.blocks && GetBlock(b.prev) == Some(db.blocks[b.prev])
                   && HeadStored(h, db, db.blocks[b.prev]) && Sha(h, db.blocks[b.prev]) == b.prev
                   && Age(h, b.prev) < Age(h, Sha(h, b)) && b.difficulty > 0
    {
      assert LinkedAt(h, db, Sha(h, b));
      if b.prev in db.blocks { assert LinkedAt(h, db, b.prev); }
    }

    /** The blocks of the walk from the old head, up to the child of `b`. */
    ghost predicate WalkedTo(bs: seq<Block>, oldHead: Block, b: Block) {
      Consecutive(h, bs) && Positive(bs) && if bs == [] then b == oldHead else bs[0].prev == Sha(h, b)
    }

    lemma {:induction false} WalkBack(bs: seq<Block>, oldHead: Block, b: Block, parent: Block)
      requires WalkedTo(bs, oldHead, b) && b.prev == Sha(h, parent) && b.difficulty > 0
      ensures WalkedTo([b] + bs, oldHead, parent)
    {
    }

    /** The second loop of `reOrg`: from the old head back to the branch point. If that is not on
        the way, the walk runs out behind genesis and the program panics. */
    method OldChain(oldHead: Block, ancestor: Hash) returns (chain: Chain?)
      requires TreeOk() && HeadStored(h, db, oldHead) && workingChain == null && Sha(h, oldHead) != ancestor
      ensures chain == null <==> !OnPath(h, db, ancestor, Sha(h, oldHead))
      ensures chain != null ==> fresh(chain) && IsChain(h, Blocks(chain.links)) && fresh(chain.links)
    {
      var ls: seq<Link> := [];
      var b := oldHead;
      while Sha(h, b) != ancestor
        invariant HeadStored(h, db, b) && fresh(ls)
        invariant OnPath(h, db, ancestor, Sha(h, oldHead)) <==> OnPath(h, db, ancestor, Sha(h, b))
        invariant WalkedTo(Blocks(ls), oldHead, b)
        decreases Age(h, Sha(h, b))
      {
        StepBack(b);
        var parent := GetBlock(b.prev);
        if parent == None { return null; }
        var l := new Link(b);
        PushFront(l, ls);
        WalkBack(Blocks(ls), oldHead, b, parent.value);
        ls := [l] + ls;
        b := parent.value;
      }
      chain := new Chain(ls);
    }

    /** A tested chain on the head: it has its true totals and outweighs all that is stored. */
    ghost predicate OnHead(ls: seq<Link>, bs: seq<Block>)
      requires bs == Blocks(ls) && bs != []
      reads `db, `td, td, ls, set l | l in ls && l.td != null :: l.td
    {
      bs[0].prev in db.blocks && Weighed(db, ls) && db.infos[bs[0].prev] + Total(bs) > td.n
    }

    /** A tested fork: its last link is in the working tree with the whole branch. */
    ghost predicate InFork(last: Link, t: seq<Block>)
      reads `db, `trails, last
    {
      last in trails && t == trails[last] && TrailOk(h, db, t, last.block) && last.td != null
    }

    /** `InsertChain`, on a chain that has been tested: it extends the head, or, as a fork, it is
        weighed by what the working tree has for it. */
    method InsertChain(chain: Chain, ghost bs: seq<Block>, ghost t: seq<Block>, ghost claim: nat) returns (crashed: bool)
      requires TreeOk() && HeadStored(h, db, head) && Topped(db, td.n) && workingChain == null
      requires bs == Blocks(chain.links) && IsChain(h, bs)
      requires bs[0].prev == Sha(h, head) ==> OnHead(chain.links, bs)
      requires bs[0].prev != Sha(h, head) ==>
                 && Valid() && IsKnown(db, workingTree, bs[0].prev)
                 && InFork(chain.links[|chain.links| - 1], t) && chain.links[|chain.links| - 1].td.n == claim
      modifies `clock, `workingChain, `workingTree, `trails, `td, `db, `head
      ensures Valid()
      ensures bs[0].prev == old(Sha(h, head)) ==>
                && db == AddAll(h, old(db), bs) && head == bs[|bs| - 1] && !crashed
                && td.n == old(db.infos[bs[0].prev]) + Total(bs)
                && workingTree == old(workingTree)
      ensures bs[0].prev != old(Sha(h, head)) ==>
                if Taken(accepts, old(db), old(td.n), old(clock), claim, t) then
                  && db == AddAll(h, old(db), t) && head == bs[|bs| - 1]
                  && td.n == old(db).infos[t[0].prev] + Total(t)
                  && crashed == !OnPath(h, old(db), t[0].prev, Sha(h, old(head)))
                else db == old(db) && head == old(head) && td == old(td) && !crashed
      decreases if bs[0].prev == Sha(h, head) then 0 else 3
    {
      var ls := chain.links;
      HashFound(ls[0].block.prev);
      var branchParent := GetBlock(ls[0].block.prev);
      if Sha(h, head) == Sha(h, branchParent.value) {
        ExtendHead(ls, bs);
        return false;
      }
      var last := ls[|ls| - 1];
      if last.td.n > td.n {
        crashed := ReOrg(last, t);
      } else {
        crashed := false;
      }
    }

    /** A chain on a stored block, none of whose blocks is in the working tree. */
    lemma {:induction false} Untangled(ls: seq<Link>, bs: seq<Block>, tds: Totals)
      requires Linked(h, db) && bs == Blocks(ls) && IsChain(h, bs) && bs[0].prev in db.blocks
      requires forall i | 0 <= i < |bs| :: Sha(h, bs[i]) !in tds
      ensures Tested(db, tds, bs, |bs| - 1) == db.infos[bs[0].prev] + Total(bs)
      ensures AllTested(ls, tds) ==> Weighed(db, ls)
    {
      TestedUpTo(h, db, tds, bs, |bs| - 1);
      assert bs[..|bs|] == bs;
      if AllTested(ls, tds) {
        forall i | 0 <= i < |ls| ensures WeighedAt(db, ls, i) {
          assert TestedAt(db, tds, ls, i);
          TestedUpTo(h, db, tds, bs, i);
        }
      }
    }

    /** The branch `t` is tested once more from its root, which is the head for the time being. */
    method Retest(bchain: Chain, ghost t: seq<Block>) returns (done: bool)
      requires TreeOk() && Linked(h, db) && Incoming(bchain) && t == Blocks(bchain.links)
      requires t[0].prev == Sha(h, head) && t[0].prev in db.blocks && NotInTree(h, workingTree, t)
      modifies `clock, `workingChain, bchain, bchain.links, `workingTree, `trails
      ensures TreeOk() && workingChain == null && trails == old(trails) && workingTree == old(workingTree)
      ensures bchain.links == old(bchain.links)
      ensures done == Overtakes(accepts, db, td.n, old(clock), t)
      ensures done ==> OnHead(bchain.links, t)
    {
      ghost var tds := TreeTotals();
      var v := TestOnHead(bchain, t, tds, Branch([], 0, false));
      done := v.Passed?;
    }

    /** `TestChain` on the head: the totals tested are the true ones. */
    method TestOnHead(chain: Chain, ghost bs: seq<Block>, ghost tds: Totals, ghost branch: Branch) returns (v: Verdict)
      requires TreeOk() && Linked(h, db) && Incoming(chain) && bs == Blocks(chain.links) && tds == TreeTotals()
      requires bs[0].prev == Sha(h, head) && bs[0].prev in db.blocks && NotInTree(h, workingTree, bs)
      modifies `clock, `workingChain, `workingTree, `trails, chain, chain.links
      ensures TreeOk() && workingChain == null && trails == old(trails) && workingTree == old(workingTree)
      ensures chain.links == old(chain.links)
      ensures v.Failed? <==> !Passes(accepts, db, workingTree, old(clock), bs)
      ensures !v.Failed? ==> clock == old(clock) + |bs| && Weighed(db, chain.links)
      ensures !v.Failed? ==> (v.Passed? <==> db.infos[bs[0].prev] + Total(bs) > td.n)
    {
      v := TestChain(chain, bs, tds, branch);
      Untangled(chain.links, bs, tds);
    }

    /** The first half of `reOrg`: the branch replaces the end of the canonical chain, or
        everything but the working tree is left as it was. */
    method SwitchTo(last: Link, ghost t: seq<Block>) returns (done: bool, ancestor: Hash)
      requires Valid() && last in trails && t == trails[last] && TrailOk(h, db, t, last.block)
      modifies `clock, `workingChain, `workingTree, `trails, `td, `db, `head
      ensures Valid() && done == Overtakes(accepts, old(db), old(td.n), old(clock), t) && ancestor == t[0].prev
      ensures !done ==> db == old(db) && head == old(head) && td == old(td)
      ensures done ==> db == AddAll(h, old(db), t) && head == last.block
      ensures done ==> td.n == old(db.infos[t[0].prev]) + Total(t)
      decreases 1, 0
    {
      var bchain := PopBranch(last);
      ancestor := bchain.links[0].block.prev;
      var oldHead := head;
      assert LinkedAt(h, db, ancestor);
      head := db.blocks[ancestor];
      done := Retest(bchain, t);
      assert td == old(td) && td.n == old(td.n) && db == old(db) && trails == old(trails);
      if !done { head := oldHead; return; }
      var crashed := InsertChain(bchain, t, t, 0);
    }

    /** The second half of `reOrg`: the old end of the canonical chain goes to the working tree. */
    method KeepOld(oldHead: Block, ancestor: Hash) returns (crashed: bool)
      requires Valid() && HeadStored(h, db, oldHead) && Sha(h, oldHead) != ancestor
      modifies `clock, `workingChain, `workingTree, `trails
      ensures Valid() && crashed == !OnPath(h, db, ancestor, Sha(h, oldHead))
    {
      var bchain := OldChain(oldHead, ancestor);
      if bchain == null { return true; }
      ghost var bs := Blocks(bchain.links);
      ghost var branch := if IsKnown(db, workingTree, bs[0].prev)
        then Branch(RootOf(bs[0].prev), FirstClaim(bs[0]), NotInTree(h, workingTree, bs)) else Branch([], 0, false);
      var v := TestChain(bchain, bs, TreeTotals(), branch);
      crashed := false;
    }

    /** `reOrg`. It panics after the switch when the branch point is not on the old head's path. */
    method ReOrg(last: Link, ghost t: seq<Block>) returns (crashed: bool)
      requires Valid() && last in trails && t == trails[last] && TrailOk(h, db, t, last.block)
      modifies `clock, `workingChain, `workingTree, `trails, `td, `db, `head
      ensures Valid()
      ensures !Overtakes(accepts, old(db), old(td.n), old(clock), t) ==> db == old(db) && head == old(head) && td == old(td)
      ensures Overtakes(accepts, old(db), old(td.n), old(clock), t) ==>
                && db == AddAll(h, old(db), t) && head == last.block
                && td.n == old(db.infos[t[0].prev]) + Total(t)
      ensures crashed <==> Overtakes(accepts, old(db), old(td.n), old(clock), t) && !OnPath(h, old(db), t[0].prev, Sha(h, old(head)))
      decreases 2
    {
      var oldHead := head;
      ghost var d := db;
      var done, ancestor := SwitchTo(last, t);
      if !done { return false; }
      AddAllKept(h, d, t);
      OnPathKept(h, d, db, ancestor, Sha(h, oldHead));
      crashed := KeepOld(oldHead, ancestor);
    }

    // ---- A whole submission --------------------------------------------------------------------

    method NewChain(blocks: seq<Block>) returns (chain: Chain)
      ensures fresh(chain) && fresh(chain.links) && Blocks(chain.links) == blocks
    {
      var ls: seq<Link> := [];
      for i := 0 to |blocks|
        invariant fresh(ls) && Blocks(ls) == blocks[..i]
      {
        var l := new Link(blocks[i]);
        ls := ls + [l];
      }
      chain := new Chain(ls);
    }

    /** The blocks from genesis to the head. */
    ghost function HeadPath(): seq<Block>
      requires HeadStored(h, db, head)
      reads `db, `head
    {
      Path(h, db, Sha(h, head))
    }

    /** The manager's total is the difficulty of all blocks from genesis to the head. */
    lemma {:induction false} HeadTotal()
      requires Valid()
      ensures td.n == Total(HeadPath())
    {
      TotalExact(h, db, Sha(h, head));
    }

    lemma {:induction false} ForkAdded(chain: Chain, bs: seq<Block>, branch: Branch)
      requires TreeOk() && Added(chain, chain.links, branch) && bs == Blocks(chain.links)
      ensures var last := chain.links[|bs| - 1];
              InFork(last, branch.root + bs) && last.td.n == Claimed(branch.first, bs)
    {
      var last := chain.links[|bs| - 1];
      assert bs[..|bs|] == bs;
      assert TrailOk(h, db, trails[last], last.block);
    }

    /** The branch that a chain makes in the working tree, if it is a fork. */
    ghost function BranchOf(bs: seq<Block>): (branch: Branch)
      requires TreeOk() && Linked(h, db) && bs != []
      reads `db, `trails, `workingTree, trails.Keys, set l | l in trails && l.td != null :: l.td
      ensures IsKnown(db, workingTree, bs[0].prev) ==> IsBranch(branch, bs)
    {
      if IsKnown(db, workingTree, bs[0].prev) then
        Branch(RootOf(bs[0].prev), FirstClaim(bs[0]), NotInTree(h, workingTree, bs))
      else Branch([], 0, false)
    }

    /** A new chain is tested and inserted: by the miner if the test succeeds, by the block pool
        also if it only finds the chain too light. */
    method TestAndInsert(chain: Chain, mined: bool, ghost bs: seq<Block>, ghost branch: Branch, ghost now: nat)
      returns (crashed: bool, ghost tried: bool)
      requires Valid() && Incoming(chain) && bs == Blocks(chain.links) && NotInTree(h, workingTree, bs)
      requires branch == BranchOf(bs) && now == clock + |bs|
      modifies this, chain, chain.links
      ensures Valid()
      ensures tried ==> Passes(accepts, old(db), old(workingTree), old(clock), bs)
      ensures !tried && Passes(accepts, old(db), old(workingTree), old(clock), bs) ==> mined && bs[0].prev != old(Sha(h, head))
      ensures After(old(db), old(head), old(td.n), tried, bs, branch, now, crashed)
      ensures bs[0].prev == old(Sha(h, head)) ==> workingTree == old(workingTree)
    {
      ghost var t := branch.root + bs;
      ghost var onHead, tds := bs[0].prev == Sha(h, head), TreeTotals();
      var v := TestNew(chain, bs, tds, branch);
      assert td == old(td) && td.n == old(td.n);
      assert db == old(db) && head == old(head);
      if v.Failed? || (mined && v.Light?) { return false, false; }
      tried := true;
      assert clock == now;
      crashed := InsertChain(chain, bs, t, Claimed(branch.first, bs));
    }

    /** `TestChain` for a chain that is new to the tree. On the head it is never too light; as a fork
        it is in the tree afterwards. */
    method TestNew(chain: Chain, ghost bs: seq<Block>, ghost tds: Totals, ghost branch: Branch) returns (v: Verdict)
      requires Valid() && Incoming(chain) && bs == Blocks(chain.links) && NotInTree(h, workingTree, bs)
      requires branch == BranchOf(bs) && tds == TreeTotals()
      modifies `clock, `workingChain, `workingTree, `trails, chain, chain.links
      ensures Valid() && (v.Failed? <==> !Passes(accepts, db, old(workingTree), old(clock), bs))
      ensures !v.Failed? ==> clock == old(clock) + |bs| && chain.links == old(chain.links)
      ensures bs[0].prev == Sha(h, head) ==> workingTree == old(workingTree)
      ensures !v.Failed? && bs[0].prev == Sha(h, head) ==> v.Passed? && OnHead(chain.links, bs)
      ensures !v.Failed? && bs[0].prev != Sha(h, head) ==>
                && IsKnown(db, workingTree, bs[0].prev) && InFork(chain.links[|bs| - 1], branch.root + bs)
                && chain.links[|bs| - 1].td.n == Claimed(branch.first, bs)
    {
      ghost var onHead := bs[0].prev == Sha(h, head);
      v := TestChain(chain, bs, tds, branch);
      if onHead {
        TotalPositive(bs);
        Untangled(chain.links, bs, tds);
      } else if !v.Failed? {
        ForkAdded(chain, bs, branch);
      }
    }

    /** Where the manager stands after a new chain: on the head it is added if it passes; as a
        fork it is added, with the branch it continues, if it passes and is taken. */
    ghost predicate After(d: Db, oldHead: Block, oldTd: nat, tried: bool,
                          bs: seq<Block>, branch: Branch, now: nat, crashed: bool)
      requires HeadStored(h, d, oldHead) && IsChain(h, bs)
      reads `db, `head, `td, td
    {
      var onHead := bs[0].prev == Sha(h, oldHead);
      var t := if onHead then bs else branch.root + bs;
      if tried && (onHead || Taken(accepts, d, oldTd, now, Claimed(branch.first, bs), t)) then
        && IsChain(h, t) && t[0].prev in d.infos
        && db == AddAll(h, d, t) && head == bs[|bs| - 1] && td.n == d.infos[t[0].prev] + Total(t)
        && crashed == (!onHead && !OnPath(h, d, t[0].prev, Sha(h, oldHead)))
      else db == d && head == oldHead && td.n == oldTd && !crashed
    }

    /** The head stays, or goes to the end of the chain and the total grows. */
    lemma {:induction false} AfterSafe(d: Db, oldHead: Block, oldTd: nat, tried: bool,
                                       bs: seq<Block>, branch: Branch, now: nat, crashed: bool)
      requires Settled(h, d, oldHead, oldTd) && IsChain(h, bs)
      requires After(d, oldHead, oldTd, tried, bs, branch, now, crashed)
      ensures Grows(d, db)
      ensures if td.n > oldTd then head == bs[|bs| - 1] else head == oldHead && td.n == oldTd && db == d && !crashed
      ensures bs[0].prev == Sha(h, oldHead) ==> !crashed && (td.n > oldTd <==> tried)
    {
      TotalPositive(bs);
      if td.n > oldTd {
        var t := if bs[0].prev == Sha(h, oldHead) then bs else branch.root + bs;
        AddAllKept(h, d, t);
      }
    }

    /** A consecutive chain of blocks that the working tree does not have, tested and inserted. */
    method Offer(blocks: seq<Block>, mined: bool, ghost branch: Branch, ghost now: nat) returns (crashed: bool, ghost tried: bool)
      requires Valid() && IsChain(h, blocks) && NotInTree(h, workingTree, blocks)
      requires branch == BranchOf(blocks) && now == clock + |blocks|
      modifies this
      ensures Valid()
      ensures tried ==> Passes(accepts, old(db), old(workingTree), old(clock), blocks)
      ensures !tried && Passes(accepts, old(db), old(workingTree), old(clock), blocks) ==>
                mined && blocks[0].prev != old(Sha(h, head))
      ensures After(old(db), old(head), old(td.n), tried, blocks, branch, now, crashed)
      ensures blocks[0].prev == old(Sha(h, head)) ==> workingTree == old(workingTree)
    {
      var chain := NewChain(blocks);
      crashed, tried := TestAndInsert(chain, mined, blocks, branch, now);
    }

    /** What the miner and the block pool do with it: the head stays, or goes to a block with more
        difficulty behind it. */
    method Submit(blocks: seq<Block>, mined: bool) returns (crashed: bool)
      requires Valid() && IsChain(h, blocks) && NotInTree(h, workingTree, blocks)
      modifies this
      ensures Valid() && Grows(old(db), db)
      ensures if Total(HeadPath()) > old(Total(HeadPath())) then head == blocks[|blocks| - 1]
              else head == old(head) && db == old(db) && !crashed
      ensures blocks[0].prev == old(Sha(h, head)) ==>
              && !crashed
              && (Total(HeadPath()) > old(Total(HeadPath())) <==>
                  Passes(accepts, old(db), old(workingTree), old(clock), blocks))
    {
      HeadTotal();
      ghost var branch, now, tried := BranchOf(blocks), clock + |blocks|, false;
      crashed, tried := Offer(blocks, mined, branch, now);
      AfterSafe(old(db), old(head), old(td.n), tried, blocks, branch, now, crashed);
      HeadTotal();
    }
  }

  // ---- What a heavier chain does not ensure -----------------------------------------------------

  /** A processor that accepts every block. */
  ghost predicate Lenient(p: Processor) {
    forall time: nat, block: Block, parent: Block :: Agrees(p, time, block, parent)
  }

  /** A new manager with one block on genesis. */
  method OneBlock(h: Hasher, accepts: Processor, g: Block, a: Block) returns (m: Manager)
    requires Digest(h, g) && Lenient(accepts) && a.prev == Sha(h, g) && a.difficulty > 0
    ensures fresh(m) && m.Valid() && m.h == h && m.accepts == accepts && m.workingTree == map[]
    ensures m.head == a && m.td.n == Weight(a) && m.db.genesis == g
    ensures Sha(h, g) in m.db.blocks && m.db.blocks[Sha(h, g)] == g && m.db.infos[Sha(h, g)] == 0
    ensures m.db.infos.Keys == {Sha(h, g), Sha(h, a)}
  {
    m := new Manager(h, accepts, g);
    assert [a][..0] == [];
    ghost var d := m.db;
    var crashed; ghost var tried;
    crashed, tried := m.Offer([a], false, m.BranchOf([a]), m.clock + 1);
    assert AddAll(h, d, []) == d;
  }

  /** A fork of genesis that outweighs the only other block is left, because the working tree
      takes the difficulty of genesis for its total. */
  method HeavierForkLeft(h: Hasher, accepts: Processor, g: Block, a: Block, b: Block) returns (m: Manager)
    requires Digest(h, g) && Lenient(accepts) && a.prev == b.prev == Sha(h, g) && a.difficulty > 0 && b.difficulty > 0
    requires g.difficulty <= Weight(a) < Weight(b)
    ensures fresh(m) && m.Valid() && m.head == a
    ensures Overtakes(accepts, m.db, m.td.n, m.clock, [b])
  {
    m := OneBlock(h, accepts, g, a);
    assert [b][..0] == [];
    var crashed; ghost var tried;
    crashed, tried := m.Offer([b], false, m.BranchOf([b]), m.clock + 1);
  }

  lemma {:induction false} TwoBlocks(h: Hasher, first: nat, a: Block, x: Block)
    ensures Claimed(first, [a, x]) == first + x.difficulty && Total([a, x]) == Weight(a) + Weight(x)
    ensures x.prev == Sha(h, a) && a.difficulty > 0 && x.difficulty > 0 ==> IsChain(h, [a, x])
  {
    var one, two := [a], [a, x];
    assert two[..1] == one && one[..0] == [] && |one| == 1;
    assert Claimed(first, one) == first;
    assert Total(one) == Weight(a);
  }

  lemma {:induction false} HashesApart(h: Hasher, g: Block, a: Block, x: Block)
    requires Digest(h, g) && a.prev == Sha(h, g) && x.prev == Sha(h, a)
    ensures Sha(h, g) != Sha(h, a) && Sha(h, x) != Sha(h, a) && Sha(h, x) != Sha(h, g)
  {
    assert Age(h, a.prev) < Age(h, Sha(h, a)) && Age(h, x.prev) < Age(h, Sha(h, x));
  }

  /** The fork a, x of genesis goes to the working tree beside the same block a on the head. */
  method ForkBesideHead(m: Manager, g: Block, a: Block, x: Block)
    requires m.Valid() && m.workingTree == map[] && m.head == a && Lenient(m.accepts)
    requires a.prev == Sha(m.h, g) && x.prev == Sha(m.h, a) && a.difficulty > 0 && x.difficulty > 0
    requires Digest(m.h, g) && Sha(m.h, g) in m.db.blocks && m.db.blocks[Sha(m.h, g)] == g && m.db.infos[Sha(m.h, g)] == 0
    modifies m
    ensures m.Valid() && m.db == old(m.db) && m.head == a && m.td == old(m.td)
    ensures m.TreeTotals().Keys >= {Sha(m.h, x)} && m.TreeTotals()[Sha(m.h, x)] == g.difficulty + x.difficulty
  {
    TwoBlocks(m.h, g.difficulty, a, x);
    HashesApart(m.h, g, a, x);
    var chain := m.NewChain([a, x]);
    ghost var branch := m.BranchOf([a, x]);
    var v := m.TestChain(chain, [a, x], m.TreeTotals(), branch);
    AddedTotal(m, chain, branch, [a, x]);
  }

  lemma {:induction false} AddedTotal(m: Manager, chain: Chain, branch: Branch, bs: seq<Block>)
    requires m.Added(chain, chain.links, branch) && bs == Blocks(chain.links)
    ensures var x := Sha(m.h, bs[|bs| - 1]); x in m.TreeTotals() && m.TreeTotals()[x] == Claimed(branch.first, bs)
  {
    assert m.InTree(chain.links[|bs| - 1]);
    assert bs[..|bs|] == bs;
  }

  /** On the head, a chain with a block that the working tree has is tested with a wrong total:
      the tree has g.difficulty + x.difficulty for the chain a, x. */
  method SeenBlockMisweighed(h: Hasher, accepts: Processor, g: Block, a: Block, x: Block, y: Block) returns (m: Manager)
    requires Digest(h, g) && Lenient(accepts) && a.prev == Sha(h, g) && x.prev == Sha(h, a) && y.prev == Sha(h, x)
    requires a.difficulty > 0 && x.difficulty > 0 && y.difficulty > 0 && g.difficulty + x.difficulty <= Weight(a)
    ensures fresh(m) && m.Valid() && m.head == a
    ensures Sha(h, a) in m.db.infos && Tested(m.db, m.TreeTotals(), [x, y], 1) < True(m.db, [x, y], 1)
  {
    m := OneBlock(h, accepts, g, a);
    ForkBesideHead(m, g, a, x);
    HashesApart(h, g, a, x);
    TwoBlocks(h, 0, x, y);
    assert [x, y][..2] == [x, y];
  }
}
