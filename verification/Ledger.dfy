/** The block database of `monkchain/chain_manager.go`: blocks under their hashes, and beside
    each the total difficulty that was written with it. */
module Ledger {

  type Hash = nat

  /** `payload` stands for everything the chain manager does not look at. */
  datatype Block = Block(prev: Hash, difficulty: nat, uncles: seq<nat>, payload: nat)

  /** The block hash. `age` orders the hashes: a block can only name a hash that existed before
      its own, so no row of parents returns to its start. */
  datatype Hasher = Hasher(sha: Block -> Hash, age: Hash -> nat)

  function Sha(h: Hasher, b: Block): Hash {
    h.sha(b)
  }

  function Age(h: Hasher, x: Hash): nat {
    h.age(x)
  }

  ghost predicate Digest(h: Hasher, genesis: Block) {
    && (forall a: Block, b: Block :: Sha(h, a) == Sha(h, b) ==> a == b)
    && (forall b: Block :: Age(h, b.prev) < Age(h, Sha(h, b)))
    && (forall b: Block :: Sha(h, b) != genesis.prev)
  }

  function Sum(ns: seq<nat>): nat {
    if ns == [] then 0 else ns[0] + Sum(ns[1..])
  }

  /** What a block adds to the total: its uncles' difficulty and its own. */
  function Weight(b: Block): nat {
    Sum(b.uncles) + b.difficulty
  }

  function Total(bs: seq<Block>): nat {
    if bs == [] then 0 else Total(bs[..|bs| - 1]) + Weight(bs[|bs| - 1])
  }

  lemma {:induction false} TotalStep(bs: seq<Block>, i: nat)
    requires i < |bs|
    ensures Total(bs[..i + 1]) == Total(bs[..i]) + Weight(bs[i])
  {
    assert bs[..i + 1][..i] == bs[..i];
  }

  predicate Consecutive(h: Hasher, bs: seq<Block>) {
    forall i | 0 < i < |bs| :: bs[i].prev == Sha(h, bs[i - 1])
  }

  predicate Positive(bs: seq<Block>) {
    forall i | 0 <= i < |bs| :: bs[i].difficulty > 0
  }

  predicate IsChain(h: Hasher, bs: seq<Block>) {
    bs != [] && Consecutive(h, bs) && Positive(bs)
  }

  lemma {:induction false} TotalPositive(bs: seq<Block>)
    requires bs != [] && Positive(bs)
    ensures Total(bs) > 0
  {
  }

  /** In a row of parents the hashes are all different, and none is the first parent. */
  lemma {:induction false} AgesGrow(h: Hasher, g: Block, bs: seq<Block>, i: nat, j: nat)
    requires Digest(h, g) && Consecutive(h, bs) && i < j < |bs|
    ensures Age(h, Sha(h, bs[i])) < Age(h, Sha(h, bs[j]))
    decreases j - i
  {
    assert bs[j].prev == Sha(h, bs[j - 1]);
    if i < j - 1 { AgesGrow(h, g, bs, i, j - 1); }
  }

  lemma {:induction false} HashesDiffer(h: Hasher, g: Block, bs: seq<Block>, i: nat, j: nat)
    requires Digest(h, g) && Consecutive(h, bs) && i < |bs| && j < |bs| && Sha(h, bs[i]) == Sha(h, bs[j])
    ensures i == j
  {
    if i < j { AgesGrow(h, g, bs, i, j); }
    if j < i { AgesGrow(h, g, bs, j, i); }
  }

  lemma {:induction false} FirstParentApart(h: Hasher, g: Block, bs: seq<Block>, j: nat)
    requires Digest(h, g) && Consecutive(h, bs) && j < |bs|
    ensures Age(h, bs[0].prev) < Age(h, Sha(h, bs[j]))
  {
    if j > 0 { AgesGrow(h, g, bs, 0, j); }
  }

  // ---- The database ----------------------------------------------------------------------

  datatype Db = Db(genesis: Block, blocks: map<Hash, Block>, infos: map<Hash, nat>)

  /** Every stored total but the first is the stored parent's and what the block adds. */
  ghost predicate Linked(h: Hasher, d: Db) {
    && Digest(h, d.genesis)
    && d.blocks.Keys == d.infos.Keys
    && Sha(h, d.genesis) in d.blocks && d.infos[Sha(h, d.genesis)] == 0
    && forall x {:trigger LinkedAt(h, d, x)} | x in d.blocks :: LinkedAt(h, d, x)
  }

  ghost predicate LinkedAt(h: Hasher, d: Db, x: Hash)
    requires x in d.blocks && d.blocks.Keys == d.infos.Keys
  {
    var b := d.blocks[x];
    && Sha(h, b) == x
    && (b != d.genesis ==>
          && b.difficulty > 0 && b.prev in d.blocks
          && d.infos[x] == d.infos[b.prev] + Weight(b))
  }

  /** The stored blocks from the first after genesis to `x`. */
  ghost function Path(h: Hasher, d: Db, x: Hash): seq<Block>
    requires Linked(h, d) && x in d.blocks
    decreases Age(h, x)
  {
    var b := d.blocks[x];
    assert LinkedAt(h, d, x);
    if b == d.genesis then [] else Path(h, d, b.prev) + [b]
  }

  /** The stored total is the difficulty of the whole path back to genesis. */
  lemma {:induction false} TotalExact(h: Hasher, d: Db, x: Hash)
    requires Linked(h, d) && x in d.blocks
    ensures d.infos[x] == Total(Path(h, d, x))
    decreases Age(h, x)
  {
    assert LinkedAt(h, d, x);
    var b := d.blocks[x];
    if b != d.genesis {
      TotalExact(h, d, b.prev);
      var p := Path(h, d, x);
      assert p[..|p| - 1] == Path(h, d, b.prev);
    }
  }

  /** Nothing stored is changed. */
  ghost predicate Grows(d: Db, d': Db) {
    && d'.genesis == d.genesis
    && forall x | x in d.blocks && x in d.infos ::
         x in d'.blocks && d'.blocks[x] == d.blocks[x] && x in d'.infos && d'.infos[x] == d.infos[x]
  }

  /** A path stays what it was. */
  lemma {:induction false} PathKept(h: Hasher, d: Db, d': Db, x: Hash)
    requires Linked(h, d) && Linked(h, d') && Grows(d, d') && x in d.blocks
    ensures Path(h, d', x) == Path(h, d, x)
    decreases Age(h, x)
  {
    assert LinkedAt(h, d, x);
    var b := d.blocks[x];
    if b != d.genesis { PathKept(h, d, d', b.prev); }
  }

  /** `x` has `a` on its path. */
  ghost predicate OnPath(h: Hasher, d: Db, a: Hash, x: Hash)
    requires Linked(h, d) && x in d.blocks
    decreases Age(h, x)
  {
    assert LinkedAt(h, d, x);
    x == a || (d.blocks[x] != d.genesis && OnPath(h, d, a, d.blocks[x].prev))
  }

  /** `add`, with the total of the parent and what the block adds. */
  function Add(h: Hasher, d: Db, b: Block): Db
    requires b.prev in d.infos
  {
    var x := Sha(h, b);
    d.(blocks := d.blocks[x := b], infos := d.infos[x := d.infos[b.prev] + Weight(b)])
  }

  /** A block that is added again is written as it was. */
  lemma {:induction false} AddKept(h: Hasher, d: Db, b: Block)
    requires Linked(h, d) && b.prev in d.blocks && b.difficulty > 0
    ensures Linked(h, Add(h, d, b)) && Grows(d, Add(h, d, b))
  {
    var d', x := Add(h, d, b), Sha(h, b);
    assert LinkedAt(h, d, b.prev);
    assert b != d.genesis;
    if x in d.blocks { assert LinkedAt(h, d, x); }
    assert Grows(d, d');
    forall y | y in d'.blocks
      ensures LinkedAt(h, d', y)
    {
      if y != x { assert LinkedAt(h, d, y); }
    }
  }

  function AddAll(h: Hasher, d: Db, bs: seq<Block>): Db
    requires Consecutive(h, bs) && (bs != [] ==> bs[0].prev in d.infos)
  {
    if bs == [] then d else
      var d' := AddAll(h, d, bs[..|bs| - 1]);
      var b := bs[|bs| - 1];
      if b.prev in d'.infos then Add(h, d', b) else d'
  }

  /** Adding a chain on a stored block: the new totals are the running sums. */
  lemma {:induction false} AddAllKept(h: Hasher, d: Db, bs: seq<Block>)
    requires Linked(h, d) && Consecutive(h, bs) && Positive(bs) && (bs != [] ==> bs[0].prev in d.blocks)
    ensures Linked(h, AddAll(h, d, bs)) && Grows(d, AddAll(h, d, bs))
    ensures bs != [] ==>
              var x := Sha(h, bs[|bs| - 1]);
              var d' := AddAll(h, d, bs);
              x in d'.blocks && d'.blocks[x] == bs[|bs| - 1] && d'.infos[x] == d.infos[bs[0].prev] + Total(bs)
  {
    if bs != [] {
      var n := |bs| - 1;
      var r, b := bs[..n], bs[n];
      AddAllKept(h, d, r);
      AddKept(h, AddAll(h, d, r), b);
    }
  }

  /** No total passes `m` but those of the chain, which end in the greatest. */
  lemma {:induction false} AddAllBound(h: Hasher, d: Db, bs: seq<Block>, m: nat)
    requires Linked(h, d) && Consecutive(h, bs) && Positive(bs) && (bs != [] ==> bs[0].prev in d.blocks)
    requires forall x | x in d.infos :: d.infos[x] <= m
    requires bs != [] ==> d.infos[bs[0].prev] + Total(bs) <= m
    ensures forall x | x in AddAll(h, d, bs).infos :: AddAll(h, d, bs).infos[x] <= m
  {
    if bs != [] {
      var n := |bs| - 1;
      AddAllBound(h, d, bs[..n], m);
      AddAllKept(h, d, bs);
      OneAdded(h, d, bs);
    }
  }

  /** The last step of a chain changes no total but that of the last block. */
  lemma {:induction false} OneAdded(h: Hasher, d: Db, bs: seq<Block>)
    requires Consecutive(h, bs) && bs != [] && bs[0].prev in d.infos
    ensures var r, d' := AddAll(h, d, bs[..|bs| - 1]), AddAll(h, d, bs);
            forall x | x in d'.infos && x != Sha(h, bs[|bs| - 1]) :: x in r.infos && r.infos[x] == d'.infos[x]
  {
  }

  // ---- Blocks that are stored already -----------------------------------------------------

  /** A stored block of a chain on a stored block has the total of the chain up to it. */
  lemma {:induction false} StoredTotal(h: Hasher, d: Db, bs: seq<Block>, i: nat)
    requires Linked(h, d) && Consecutive(h, bs) && i < |bs| && bs[0].prev in d.blocks && Sha(h, bs[i]) in d.blocks
    ensures d.infos[Sha(h, bs[i])] == d.infos[bs[0].prev] + Total(bs[..i + 1])
  {
    var r := bs[..i + 1];
    assert r[..i] == bs[..i];
    if i > 0 { assert bs[i].prev == Sha(h, bs[i - 1]); }
    StoredBlock(h, d, bs[i]);
    if i > 0 {
      StoredTotal(h, d, bs, i - 1);
    }
  }

  lemma {:induction false} StoredBlock(h: Hasher, d: Db, b: Block)
    requires Linked(h, d) && Sha(h, b) in d.blocks && (b.prev in d.blocks || exists a :: b.prev == Sha(h, a))
    ensures d.blocks[Sha(h, b)] == b && b.prev in d.blocks && d.infos[Sha(h, b)] == d.infos[b.prev] + Weight(b)
  {
    assert LinkedAt(h, d, Sha(h, b));
    if b.prev in d.blocks { assert LinkedAt(h, d, b.prev); }
  }

  /** One more block of a chain, with its running total. */
  lemma {:induction false} AddStep(h: Hasher, d: Db, bs: seq<Block>, i: nat)
    requires Linked(h, d) && IsChain(h, bs) && bs[0].prev in d.blocks && i < |bs|
    ensures var d', x := AddAll(h, d, bs[..i]), Sha(h, bs[i]);
            var total := d.infos[bs[0].prev] + Total(bs[..i + 1]);
            AddAll(h, d, bs[..i + 1]) == d'.(blocks := d'.blocks[x := bs[i]], infos := d'.infos[x := total])
  {
    var r := bs[..i + 1];
    assert r[..i] == bs[..i];
    AddAllKept(h, d, bs[..i]);
    TotalStep(bs, i);
  }

  /** On a chain that outweighs all that is stored the last block is a new head. */
  lemma {:induction false} NewTop(h: Hasher, d: Db, bs: seq<Block>, td: nat)
    requires Linked(h, d) && IsChain(h, bs) && bs[0].prev in d.blocks
    requires (forall x | x in d.infos :: d.infos[x] <= td) && td < d.infos[bs[0].prev] + Total(bs)
    ensures var d', b, t := AddAll(h, d, bs), bs[|bs| - 1], d.infos[bs[0].prev] + Total(bs);
            && Linked(h, d') && Grows(d, d')
            && Sha(h, b) in d'.blocks && d'.blocks[Sha(h, b)] == b && d'.infos[Sha(h, b)] == t
            && (forall x | x in d'.infos :: d'.infos[x] <= t)
            && Sha(h, b) !in d.blocks
  {
    AddAllKept(h, d, bs);
    AddAllBound(h, d, bs, d.infos[bs[0].prev] + Total(bs));
  }

  lemma {:induction false} OnPathKept(h: Hasher, d: Db, d': Db, a: Hash, x: Hash)
    requires Linked(h, d) && Linked(h, d') && Grows(d, d') && x in d.blocks
    ensures OnPath(h, d', a, x) == OnPath(h, d, a, x)
    decreases Age(h, x)
  {
    assert LinkedAt(h, d, x);
    var b := d.blocks[x];
    if b != d.genesis { OnPathKept(h, d, d', a, b.prev); }
  }
}
