# Thelonious in Dafny

Thelonious is a permissioned blockchain in Go. This project models the parts of it where the
answer is not in one function: the Merkle-Patricia trie over a write-back cache, the codecs that
keys, nodes, messages and mnemonics go through, the chain manager with its working tree of forks,
and the execution of transactions and blocks down to the gas of the virtual machine. Check it with
`dafny verify dfyconfig.toml`.

## How the project is laid out

| files | what they model |
|---|---|
| `Bytes.dfy`, `Rlp.dfy`, `ZeroRun.dfy`, `CompressedRlp.dfy` | big-endian numbers, RLP (Appendix B of the Yellow Paper), the zero-run compressor, and both together |
| `HexPrefix.dfy` | nibble keys and the hex-prefix code (Appendix C of the Yellow Paper) |
| `PatriciaTree.dfy` | the trie as a value: insertion, canonical shape, folding |
| `NodeStore.dfy`, `NodeOps.dfy`, `NodeDelete.dfy`, `NodeIterator.dfy` | nodes inline or behind their hash, the cache and the database, and the recursions of `trie.go` on them |
| `TrieHistory.dfy`, `Trie.dfy`, `TrieRuns.dfy` | runs of updates, the `Trie` object, `ParanoiaCheck`, runs of updates and deletes |
| `Wire.dfy`, `Mnemonic.dfy` | message framing and reassembly; keys as words |
| `Ledger.dfy`, `ChainManager.dfy` | the block database as a value; the chain manager with mutable links and shared totals |
| `Storage.dfy`, `StorageTrie.dfy`, `StorageOrder.dfy` | the storage cache of an account written to its trie slot by slot: as maps, on the trie of `Trie.dfy`, and three slots for which the order decides |
| `World.dfy`, `State.dfy`, `Transition.dfy` | a transaction on account values; account objects and snapshots; the transaction as it is written, on objects that may be replaced under it |
| `Blocks.dfy`, `BlockManager.dfy`, `BlockOrder.dfy` | the transactions and rewards of a block, as functions and as the loops over a state; when the orders of storage writes do not matter to a block, and a mined block that is rejected for them |
| `Vm.dfy` | closures, prices, and the run loop with nested calls |

Two things are taken from outside everywhere. Hashes are functions that are assumed injective (and,
for nodes, at least 32 bytes long; `NodeStore.TheloniousSound` says that with such a hash the codec of
the source is one to which everything about the trie applies). What depends on the network, on
signatures or on the genesis contract is a parameter: the verdict of the block processor in the chain
manager is any function of time, block and parent; who may transact, and what a contract does when it
runs, are functions of the accounts; what an instruction computes or is told about an account is a tape
of arbitrary answers.

What can be said of a trie depends on what its cached nodes come from, and the ghost field `mode` of
its codec tells. `Built`: this run built them all; then the outcome of a delete is a function of the
tree (`NodeDelete.Deleted`). `Opened`: the trie was opened from the database and its branches are still those
that were loaded, with at most so many slots cleared. The empty slots of a loaded branch are not the Go string
"" that the fold looks for, so no branch folds until 16 slots are cleared: a delete takes out its key and nothing
else (`NodeDelete.Kept`). `Read`: some nodes were loaded and some were split since; which branches fold then depends on
what else was put under the same hash, and a delete leaves one of finitely many trees
(`NodeDelete.LeftOver`). `Faded`: some nodes were built from loaded ones that held a value 00; such a value still reads as 00
and encodes as nothing. In all modes but the last every lookup is exact. In the last it is exact but for
values 00, and after a `Sync` the database has what the tree says.

Go ranges over a map in random order. Where that matters, for the storage cache of an account, the
order is a parameter, together with the slots that each delete loses (`Storage.Plan`); what they
can be is proved on the trie (`StorageTrie.SyncCarries`).

## What comes out differently than one might expect

- A value 00 that was stored is read back as 00, but a branch that is loaded and written again loses it,
  because a byte 0 encodes like an empty string (`TrieObject.ZeroValueLost`, `Rlp.Reencoded`).
- `deleteState` loses a payload that is an inline list when it joins a branch with its last child
  (`NodeDelete.InlinePayloadLost`, and as a run of the trie `TrieObject.LossyRun`). On a canonical trie that was
  never loaded this happens exactly where `NodeDelete.Lossy` says (`NodeDelete.DeletedCanonical`); on one that was
  just opened, never; on any other only where `NodeDelete.CanDrop` says (`NodeDelete.LeftOverExact`). It also slices the key beyond its end for some keys of unequal length
  (`NodeDelete.Overruns`).
- So clearing a slot can take other slots out of a storage trie, and whether they are put back depends on the
  order in which Go ranges over the cache (`StorageOrder.OrderMatters`). The trie has what is read exactly if every
  slot that is lost still has its own turn to come (`Storage.SyncExact`). A block mined with one order can be
  rejected with another (`BlockOrder.OrderRejects`); a block of two calls of a contract that has no storage yet
  brings this about (`BlockOrder.ClearingRejected`). It is accepted, in whatever orders and with whatever parts of the tries
  loaded on either side, if no cleared slot can take others with it (`BlockOrder.MinedBlockOnTries`). Which slots can is
  told by the trie at the start (`StorageTrie.Quiet`): on tries never loaded this is exact (`BlockOrder.CalmIffQuiet`), and
  for accounts read from their records it is enough to overwrite what is there and clear less than 16 slots
  (`BlockOrder.RecordsCalm`).
- The miner ignores that an uncle is not allowed; the block that comes of it is rejected (`Blocks.BadUncleRejected`).
- An update with an empty value leaves a node that binds nothing, so the root depends on history (`TrieHistory.EmptyValueStays`).
- A copied trie has the dirty nodes and not the mark, so its `Sync` writes nothing (`NodeStore.CopyLosesDirt`).
- A run of exactly 65536 zeros is not restored by the decompressor if anything follows it (`ZeroRun.Run65536`).
- The working tree gives all links of a branch one shared number, with the parent's difficulty in place of
  the first block's and without uncles. A heavier fork may therefore be left (`ChainManager.HeavierForkLeft`, a run
  from genesis); it is judged by its true total in exactly one case (`ChainManager.ClaimTrue`). A fork that is
  taken is always heavier, because the totals are worked out again.
- A chain on the head with a block that only the working tree has is given a wrong total
  (`ChainManager.SeenBlockMisweighed`); the totals are true exactly if the tree's are (`ChainManager.TestedTrue`).
- A re-organisation whose branch point is stored but not on the old head's path takes the fork and then panics
  while it collects the old chain (`ChainManager.Manager.ReOrg`).
- After a failed run the refund goes to account objects that the state has replaced, so the sender pays for all
  of the gas (`Transition.StateTransition.TransitionState`); a failed creation loses the value sent (`World.UnusedLoss`).
- The error of an empty gas pool has another type than the one `ProcessTransactions` looks for, so no
  transaction is ever left unhandled and such a transaction gets a receipt (`Blocks.Dropped`).
- A dropped transaction changes the state if its sender had no account (`Blocks.DropSeen`), and the block
  mined from it is rejected (`Blocks.UnknownSenderRejected`).
- A contract created at the coinbase's own address replaces the account object that is held, so the refund of gas
  makes money; at the sender's address it destroys money (`World.RefundSupply`, `World.TransitSupply`).
- `UseGas` given the closure's own number records nothing as used (`Vm.Closure.UseGas`).

## Model

| member | source | states |
|---|---|---|
| Bytes.BigBytesValue | monkutil/rlp.go:130-136 | the minimal bytes of a number read back as it, start with no zero, and are empty only for zero |
| Bytes.ReadVarIntAt | monkutil/bytes.go:67-89 | through all four buffer widths a length of up to eight bytes reads as its big-endian number |
| Bytes.LeftPad | monkutil/bytes.go:204-213 | padding keeps the number and reaches the length asked for |
| Rlp.EncodeItem | monkutil/rlp.go:102-184 | the encoder's buffer is the encoding of the item |
| Rlp.ParseLoop | monkutil/rlp.go:261-327 | the decoder computes `Parse`, errors included |
| Rlp.ItemsLoop | monkutil/rlp.go:284-320 | the list loop computes `ParseItems`, with its errors and with the last item where it runs over the payload |
| Rlp.ParseContents | monkutil/rlp.go:284-320 | on an encoded list the loop consumes exactly the announced payload, whatever follows, and gives its items |
| Rlp.ParseContent | monkutil/rlp.go:261-327 | whatever follows, decoding an encoding gives its item and its length, for any nesting |
| Rlp.RoundTrip | monkutil/rlp.go:102-327 | decoding an encoding embedded anywhere gives the item (a one-byte string below 0x80 as a byte) and the position just past it |
| Rlp.EncodingPrefixFree | monkutil/rlp.go:102-184 | no encoding is a prefix of another's |
| Rlp.Uint64Kept | monkutil/rlp.go:126-127 | an unsigned integer survives the conversion to a signed one if and only if it is at most 2^63 |
| Rlp.Reencoded | monkutil/rlp.go:102-327 | encoding what was decoded gives the same bytes if and only if no string is the single byte 00 |
| ZeroRun.FindRuns | monkutil/rlp.go:334-352 | the first loop finds every maximal run of zeros, in order |
| ZeroRun.Compress0 | monkutil/rlp.go:333-382 | the compressor's output is that of the recursive definition |
| ZeroRun.Decompress0 | monkutil/rlp.go:404-436 | the decompressor's output is that of the recursive definition, and it panics exactly when a length byte is taken for a run, leaves the buffer, or is negative once cut to an int64 |
| ZeroRun.RoundTrip | monkutil/rlp.go:333-436 | decompression undoes compression if and only if no run's length misleads it, and panics otherwise |
| ZeroRun.ShortRunsIntact | monkutil/rlp.go:333-436 | runs shorter than 65536 never mislead it |
| ZeroRun.Run65536 | monkutil/rlp.go:362-436 | a run of exactly 65536 zeros misleads it if and only if something follows |
| CompressedRlp.ContentRestored | monkutil/rlp.go:439-456 | decompression gives every string of a decoded nested list back if and only if each is intact, and breaks otherwise |
| CompressedRlp.CompressedRoundTrip | monkutil/rlp.go:139-259 | the same through the bytes: compressed, encoded, decoded at its place in a buffer, and decompressed |
| HexPrefix.CompareIntSlice | monktrie/slice.go:6-16 | true exactly for equal slices |
| HexPrefix.MatchingNibbleLength | monktrie/slice.go:19-30 | the length of the longest common prefix |
| HexPrefix.CompactEncodeLoop | monktrie/encoding.go:9-33 | the loop's output is the hex-prefix code |
| HexPrefix.CompactHexDecode | monktrie/encoding.go:50-61 | the loop gives the nibbles of the string and the terminator |
| HexPrefix.CompactRoundTrip | monktrie/encoding.go:9-48 | hex-prefix decoding undoes encoding for every part of a key, open or terminated |
| HexPrefix.KeyRoundTrip | monktrie/encoding.go:50-76 | a string is the decoding of its key |
| HexPrefix.KeyOfDecoded | monktrie/encoding.go:50-76 | a complete key of whole bytes is the key of its decoding |
| PatriciaTree.InsertLookup | monktrie/trie.go:335-405 | after an insertion the key has what was inserted and every other key, of any length, what it had |
| PatriciaTree.InsertNode | monktrie/trie.go:335-405 | an insertion leaves a well-formed tree |
| PatriciaTree.InsertCanonical | monktrie/trie.go:335-405 | inserting a non-empty value keeps the canonical shape |
| PatriciaTree.CanonicalUnique | monktrie/trie.go:335-405 | two canonical trees with the same bindings are the same tree |
| PatriciaTree.FoldLookup | monktrie/trie.go:471-497 | folding a branch with one occupied slot keeps every binding |
| PatriciaTree.FoldCanonical | monktrie/trie.go:471-497 | folding leaves a canonical tree |
| PatriciaTree.JoinLookup | monktrie/trie.go:444-454 | joining two key parts keeps every binding |
| NodeStore.TheloniousSound | monktrie/trie.go:66-79 | with a hash whose values are distinct and at least 32 bytes long, the source's own encoding and threshold of 32 bytes meet all that is asked of a codec |
| NodeStore.PutKeeps | monktrie/trie.go:66-79 | putting a node keeps all that could be read and makes a node of 32 bytes or more, or a forced one, readable under its hash |
| NodeStore.FetchFinds | monktrie/trie.go:85-109 | a node that the cache or the database has is read as it was put |
| NodeStore.FetchKeeps | monktrie/trie.go:85-109 | reading, with the caching it does, keeps all that could be read |
| NodeStore.CommitNodes | monktrie/trie.go:119-138 | the loop writes exactly the dirty nodes, clears the marks and empties a cache of more than 200 nodes |
| NodeStore.UndoNodes | monktrie/trie.go:140-147 | the loop drops exactly the dirty nodes |
| NodeStore.CommitPersists | monktrie/trie.go:119-138 | after a commit the database alone has every node that could be read |
| NodeStore.CommitOk | monktrie/trie.go:119-138 | and what is still cached is what the database has |
| NodeStore.UndoRestores | monktrie/trie.go:140-147 | after an undo every node of the database can be read again |
| NodeStore.CopyLosesDirt | monktrie/trie.go:236-243 | a copy is sound if and only if nothing was dirty, and its commit writes nothing |
| NodeOps.Resolve | monktrie/trie.go:290-307 | the node an item refers to is found, inline or behind its hash |
| NodeOps.GetState | monktrie/trie.go:260-288 | a lookup through inline and hashed nodes, built or loaded, gives the tree's binding and keeps the store; only where a value 00 has faded may it still be read |
| NodeOps.InsertState | monktrie/trie.go:335-405 | the item that comes back reads and encodes as the tree with the key inserted, in a store that keeps what it had; only values 00 in loaded nodes may fade |
| NodeOps.SplitNodeAt | monktrie/trie.go:368-378 | the branch made at the first different nibble holds the old child and the new value |
| NodeDelete.CountSlots | monktrie/trie.go:471-480 | the loop tells the one occupied slot, or that there are several, or none |
| NodeDelete.FoldChild | monktrie/trie.go:481-497 | what a branch with one child becomes, and that a node is dropped if and only if it is the inline payload of a two-item child |
| NodeDelete.DeleteState | monktrie/trie.go:407-501 | done, exactly the key is gone, on built and loaded nodes alike; a payload is dropped only where `CanDrop` says of tree and key; what is left is one of the trees of `LeftOver`; on nodes never loaded it is `Deleted` and a payload is dropped if and only if `Drops`; on nodes as they were loaded nothing is ever dropped and no branch folds; the slice error if and only if a key part overruns |
| NodeDelete.LeftOverExact | monktrie/trie.go:407-501 | whichever of its branches fold, a delete binds nothing new, and takes exactly the key if it cannot drop a payload; keys of one length stay so |
| NodeDelete.KeptExact | monktrie/trie.go:457-500 | if no branch folds, exactly the key goes |
| NodeDelete.DeletedRemoves | monktrie/trie.go:407-501 | as a function of the tree: exactly the key goes if nothing is dropped, and in any case nothing new is bound |
| NodeDelete.DeletedCanonical | monktrie/trie.go:407-501 | on a canonical tree a payload is dropped if and only if the key is `Lossy`; if so some other key is lost, and if not the result is canonical |
| NodeDelete.NoOverrun | monktrie/trie.go:435-436 | with keys of equal length there is no slice error |
| NodeDelete.PlainRoom | monktrie/trie.go:435-436 | nor in any tree that updates and deletes of keys of one length leave, canonical or not |
| NodeDelete.InlinePayloadLost | monktrie/trie.go:483-490 | for the codec of the source, three keys in a canonical trie of which deleting one loses both others |
| NodeIterator.PairsExact | monktrie/trie.go:594-625 | unless a key ends in an empty value, the walk lists every binding once and nothing else |
| NodeIterator.FetchNode | monktrie/trie.go:590-592 | the calls made for a hashed node are those of its tree |
| NodeIterator.IterateNode | monktrie/trie.go:594-625 | the calls made are those of the walk, across inline and hashed children, and over what a lossy delete left |
| TrieHistory.UpdateAllBinds | monktrie/trie.go:186-201 | after a run of updates the tree binds the final map |
| TrieHistory.HistoryIndependence | monktrie/trie.go:186-201 | two runs of updates with non-empty values and the same final map leave the same tree and root |
| TrieHistory.DeletedAsNeverInserted | monktrie/trie.go:213-228 | on a canonical tree never loaded, deleting a key that was inserted gives back the tree without it if and only if the delete is not lossy |
| TrieHistory.NodeContentInjective | monktrie/trie.go:66-79 | nodes with the same contents or references stand for the same tree |
| TrieObject.RootInjective | monktrie/trie.go:231-233 | equal roots mean equal trees |
| TrieObject.PutRoot | monktrie/trie.go:186-201 | the root is put by force and stands for the tree, also for an empty list |
| TrieObject.Trie.Update | monktrie/trie.go:186-201 | `Get` of the key is the value and of every other key what it was, exactly unless a value 00 fades; the last synced tree is kept |
| TrieObject.Trie.Get | monktrie/trie.go:203-211 | the tree's binding, with the trie unchanged |
| TrieObject.Trie.Delete | monktrie/trie.go:213-228 | as `DeleteState`, for the object, which stays sound in every outcome; in a trie that was just opened it is always done, unless it overruns; the last synced tree is kept |
| TrieObject.Trie.Sync | monktrie/trie.go:246-249 | the database alone answers every lookup from now on, values 00 included |
| TrieObject.Trie.Undo | monktrie/trie.go:251-254 | whatever came between, every lookup is what it was at the last `Sync`; it needs no more than the cache and the previous root |
| TrieObject.Trie.Each | monktrie/trie.go:586-588 | the calls are exactly those of the walk over the tree |
| TrieObject.CallsRebuild | monktrie/trie.go:15-26 | the calls of a walk are updates that rebuild all bindings |
| TrieObject.ParanoiaCheck | monktrie/trie.go:15-26 | the walked trie is as it was; unless a key ends in an empty value, the rebuilt one has the same bindings and is canonical, and the roots agree if and only if the trie was canonical |
| TrieObject.SameRoots | monktrie/trie.go:186-201 | two tries updated from empty with non-empty values have the same root if and only if the final maps are the same |
| TrieObject.UpdateAndDelete | monktrie/trie.go:186-228 | on a trie never loaded, inserting a new key and deleting it gives the old root if and only if the delete drops nothing |
| TrieRuns.RunBinds | monktrie/trie.go:186-228 | a run of updates with non-empty values and deletes that are not lossy leaves a tree that binds the final map |
| TrieRuns.RunRoots | monktrie/trie.go:186-228 | two such runs have the same root if and only if they leave the same map |
| TrieRuns.Run | monktrie/trie.go:186-228 | on the object: unless a delete panics, the outcomes tell whether the run was such a one, and then the root is that of the run's tree |
| TrieRuns.SameRootsAfter | monktrie/trie.go:186-228 | two tries that went through different such runs from empty have the same root if and only if the final maps are the same |
| TrieObject.RunAndUndo | monktrie/trie.go:186-254 | any mix of updates, deletes and lookups followed by an undo gives the tree and root of the last sync |
| TrieObject.Reopen | monktrie/trie.go:174-249 | after a sync a new trie over the database answers every lookup with what the tree binds |
| TrieObject.ZeroValueLost | monktrie/trie.go:387-401 | a stored branch that is loaded, written with another slot and committed keeps, of its other slots, exactly those without a string 00; a value 00 is read before and is gone after |
| TrieObject.LossyRun | monktrie/trie.go:407-501 | a run of the source's own trie: three updates, a delete of one key, and lookups that find both others gone |
| Wire.FixedValue | monkutil/bytes.go:32-62 | a number written in four bytes reads back |
| Wire.OpenRoundTrip | monkwire/messaging.go:149-183 | a payload opens to the type and the data that were written, type 0 included |
| Wire.ReadFrames | monkwire/messaging.go:88-147 | for every split of frames into reads that cuts no header: no error, and on return the bytes taken are exactly the frames of the payloads, in order |
| Wire.ReadMessages | monkwire/messaging.go:88-160 | the same for messages, with their types and data |
| Mnemonic.JoinSplit | monkcrypto/mnemonic.go:25-56 | three indices give every number below 1626^3 back, although Go's remainder may be negative |
| Mnemonic.IndexOf | monkcrypto/mnemonic.go:9-16 | the first place of the word, and -1 exactly if it is not there |
| Mnemonic.ChunkDefined | monkcrypto/mnemonic.go:22-28 | characters that are no number count as 0, and an index is out of range if and only if the number is negative |
| Mnemonic.ChunkRoundTrip | monkcrypto/mnemonic.go:18-60 | the number of eight hexadecimal digits comes back from their three words |
| Mnemonic.MnemonicEncode | monkcrypto/mnemonic.go:18-31 | for any characters the loop gives three words for every eight it slices, or panics |
| Mnemonic.MnemonicDecode | monkcrypto/mnemonic.go:33-60 | for any words, the digits of each three, or a panic exactly if their number is no multiple of three |
| Mnemonic.EncodeDefined | monkcrypto/mnemonic.go:18-31 | encoding panics unless the number of characters is a multiple of eight, and zero or at least 64, and none of the eight numbers is negative |
| Mnemonic.MnemonicRoundTrip | monkcrypto/mnemonic.go:18-60 | a key of 64 hexadecimal digits has 24 words, and they decode to it, in lower case |
| Ledger.AddKept | monkchain/chain_manager.go:337-348 | adding a block on a stored one keeps every total exact and changes nothing stored |
| Ledger.AddAllKept | monkchain/chain_manager.go:629-654 | the totals of an added chain are the running sums from its stored parent |
| Ledger.NewTop | monkchain/chain_manager.go:629-654 | the end of a chain heavier than all that is stored is new and has the greatest total |
| Ledger.TotalExact | monkchain/chain_manager.go:398-418 | a stored total is the difficulty of all blocks back to genesis, uncles included |
| Ledger.PathKept | monkchain/chain_manager.go:337-348 | the path to a stored block never changes |
| Ledger.StoredTotal | monkchain/chain_manager.go:489-512 | a block of a chain that is stored already has the total of the chain up to it |
| ChainManager.ClaimGap | monkchain/chain_manager.go:753-800 | by how much the shared number of a branch misses its true total |
| ChainManager.ClaimTrue | monkchain/chain_manager.go:782-788 | a fork of a stored block is judged by its true total if and only if the parent's difficulty is the first block's weight and the later uncles' |
| ChainManager.HeavierForkLeft | monkchain/chain_manager.go:782-788 | a manager that starts at genesis and is given two blocks on it keeps the first as its head, although the second passes and is heavier |
| ChainManager.TestedTrue | monkchain/chain_manager.go:398-418 | on a stored block all tested totals are true if and only if the working tree has true totals for the blocks that only it knows |
| ChainManager.TestedFork | monkchain/chain_manager.go:398-418 | on a block that only the tree has, a chain new to the tree is tested with the tree's total and its own |
| ChainManager.SeenBlockMisweighed | monkchain/chain_manager.go:489-512 | a run from genesis after which a chain on the head, with a block left in the tree, is tested with too small a total |
| ChainManager.Manager.constructor | monkchain/chain_manager.go:322-329 | a fresh manager stands on genesis with total 0 |
| ChainManager.Manager.ParentFound | monkchain/chain_manager.go:422-445 | the parent of a block under test is found where it should be: stored, in the tree, or just before it in the chain |
| ChainManager.Manager.CalcTotalDiff | monkchain/chain_manager.go:398-418 | the total of a block under test rests on that of its parent in the database, or else the tree, or else the chain |
| ChainManager.Manager.ProcessAll | monkchain/chain_manager.go:588-613 | succeeds if and only if the parent is known and every block is accepted on its predecessor |
| ChainManager.Manager.DetectFork | monkchain/chain_manager.go:892-908 | a fork exactly when the parent is known and not the head |
| ChainManager.Manager.AddChainToWorkingTree | monkchain/chain_manager.go:753-800 | the parents of every link in the tree lead through consecutive blocks to a stored one; all new links share one number, whose value is given |
| ChainManager.Manager.TestChain | monkchain/chain_manager.go:567-627 | when it fails, that it finds the chain too light exactly by the tested total of its last block, what it leaves in the tree, and that nothing else changes |
| ChainManager.Manager.Lengthen | monkchain/chain_manager.go:629-654 | every block is added with its link's total |
| ChainManager.Manager.ExtendHead | monkchain/chain_manager.go:629-654 | the manager is again in a sound state, with the end of the chain as its head |
| ChainManager.Manager.PopBranch | monkchain/chain_manager.go:687-704 | walking the parents back gives the whole branch and takes it out of the tree |
| ChainManager.Manager.OldChain | monkchain/chain_manager.go:735-740 | the walk from the old head fails if and only if the branch point is not on its path |
| ChainManager.Manager.InsertChain | monkchain/chain_manager.go:658-685 | what becomes of a tested chain, on the head and as a fork |
| ChainManager.Manager.SwitchTo | monkchain/chain_manager.go:687-733 | the branch is taken if and only if it passes once more and its true total is greater; otherwise head, total and database are as before |
| ChainManager.Manager.Retest | monkchain/chain_manager.go:719-731 | the branch passes the test from its root if and only if it is accepted once more and its true total is greater |
| ChainManager.Manager.KeepOld | monkchain/chain_manager.go:734-749 | the old chain goes to the tree and the state stays sound |
| ChainManager.Manager.ReOrg | monkchain/chain_manager.go:687-749 | both together, and exactly when it panics |
| ChainManager.Manager.NewChain | monkchain/chain_manager.go:555-561 | fresh links for the blocks |
| ChainManager.Manager.HeadTotal | monkchain/chain_manager.go:331-348 | in every sound state the manager's total is the difficulty of all blocks from genesis to the head |
| ChainManager.Manager.TestAndInsert | block_pool.go:374-391 | the state after a submission, in every case, for the pool and for the miner |
| ChainManager.Manager.AfterSafe | monkchain/chain_manager.go:567-749 | the database only grows; the head stays, or is the end of the chain with a greater total |
| ChainManager.Manager.Submit | block_pool.go:341-391 | from every sound state, for every consecutive chain new to the tree: a sound state again, and the head is unchanged or has strictly more difficulty behind it; on the head, it moves if and only if the chain passes |
| World.SupplyUpdate | monkstate/state_object.go:202-204 | the supply changes by what changes at one address |
| World.MoveSupply | monkstate/state_object.go:190-204 | moving an amount keeps the supply, also within one account |
| World.RefundSupply | monkchain/state_transition.go:123-130 | so does the refund, unless the account of the coinbase or of the sender was just replaced |
| World.CallSupply | monkchain/state_transition.go:210-257 | so does a message, on success and on revert |
| World.CreateSupply | monkchain/state_transition.go:195-245 | a creation loses the value if it fails, and if not what was at the address and what the refund gives or takes for nothing |
| World.TransitSupply | monkchain/state_transition.go:148-263 | every way through a transaction keeps the supply but for that loss, whichever of sender, receiver, coinbase and created address coincide |
| Storage.SyncExact | monkstate/state_object.go:159-171 | written in some order, the trie has what is read if and only if every slot that is lost still has its own turn to come |
| Storage.CalmSync | monkstate/state_object.go:159-171 | if nothing is lost the trie has what is read, in any order |
| StorageTrie.SyncCarries | monkstate/state_object.go:159-171 | on the trie itself, whatever of it was loaded and whichever branches fold: it has at the end what the plan of lost slots says |
| StorageTrie.LostIffLossy | monkstate/state_object.go:162-167 | clearing a slot of a canonical trie takes others with it if and only if the slot is lossy |
| StorageTrie.SyncTreeExact | monkstate/state_object.go:159-171 | written in some order, the trie has what is read if and only if every slot lost with another returns |
| StorageTrie.QuietCalm | monkstate/state_object.go:159-171 | whatever was loaded, nothing is lost if no cleared slot is one that can take others with it at its turn |
| StorageTrie.CalmIff | monkstate/state_object.go:159-171 | on a trie never loaded, nothing is lost if and only if no cleared slot is lossy at its turn |
| StorageTrie.OverwritesQuiet | monkstate/state_object.go:159-171 | on a trie just opened, overwriting slots that are there and clearing less than 16 loses nothing, in any order |
| StorageTrie.PutsQuiet | monkstate/state_object.go:159-171 | nor does a cache without zeros, on any trie |
| StorageTrie.OrderFree | monkstate/state_object.go:159-178 | two runs in which no cleared slot can take others with it, in different orders and on tries of which different parts were loaded, leave the same trie once rebuilt, which has what is read |
| StorageTrie.SyncStorage | monkstate/state_object.go:159-178 | on the trie object, whatever of it was loaded, with the rebuilt trie in place of a different one: what becomes of it at each turn, that at the end it has what the plan of lost slots says, and that it is canonical and has what is read if no cleared slot can take others with it; on a trie never loaded it never panics |
| StorageTrie.OpenStorage | monkstate/state_object.go:330-337 | the storage trie of an account read from its record is one of which everything is as it was loaded |
| StorageOrder.SlotsKin | monkstate/state_object.go:115-123 | the slots 0, 256 and 257 are stored under keys of the kind that the next row is about |
| StorageOrder.OrderMatters | monkstate/state_object.go:159-178 | for the codec of the source, three slots with small values of which one is cleared: in one order the trie has what is read, in another it has nothing |
| World.CalmUpdated | monkstate/state.go:218-229 | if no delete loses a slot, an update leaves every storage trie with what is read, in any order |
| State.StateObject.AddAmount | monkstate/state_object.go:190-204 | the balance and nothing else, in a new number |
| State.StateObject.RefundGas | monkstate/state_object.go:242-249 | the balance, in place, and the pool |
| State.StateObject.GetStorage | monkstate/state_object.go:112-130 | the value read through the cache; what is cached changes nothing that is read |
| State.StateObject.SetStorage | monkstate/state_object.go:132-137 | that slot reads differently and no other |
| State.StateObject.Sync | monkstate/state_object.go:159-171 | the storage trie has what the order of the slots and their losses make of it, and the cache stays |
| State.State.GetStateObject | monkstate/state.go:86-106 | the one object for the address, loaded if need be, and no change to what is read |
| State.State.GetOrNewStateObject | monkstate/state.go:109-116 | an empty account if there was none |
| State.State.NewStateObject | monkstate/state.go:119-131 | an empty account whatever there was |
| State.State.Change | monkstate/state_object.go:190-272 | a write to an object is a write to that account if the state has the object, and to none if it was replaced |
| State.State.Copy | monkstate/state.go:146-159 | the same accounts in objects and numbers of its own |
| State.State.Set | monkstate/state.go:161-169 | the accounts of the other state |
| State.State.Update | monkstate/state.go:218-229 | the trie has every account, with its storage as the orders and losses leave it |
| State.State.Sync | monkstate/state.go:196-212 | only what the trie has is left |
| State.State.RunAndRevert | monkstate/state.go:146-169 | whatever writes, updates, syncs and nested reverts follow a copy, going back to it restores every account and all storage |
| Transition.StateTransition.ValidateTx | monkdoug/models.go:449-476 | the error and the account the sender gets |
| Transition.StateTransition.BuyGas | monkchain/state_transition.go:103-121 | the sender pays the coinbase, or nothing happens |
| Transition.StateTransition.RefundGas | monkchain/state_transition.go:123-130 | a refund on the objects that are still the state's, and none on those that were replaced |
| Transition.StateTransition.Eval | monkchain/state_transition.go:278-302 | the writes of the run are in the state, and the objects held are its own unless an inner call was reverted |
| Transition.StateTransition.FallBack | monkchain/state_transition.go:237-252 | after a failure the state is the snapshot, untouched by the refund |
| Transition.StateTransition.CreateContract | monkchain/state_transition.go:195-245 | as `World.Create`, for any address |
| Transition.StateTransition.CallAccount | monkchain/state_transition.go:210-257 | as `World.Call` |
| Transition.StateTransition.TransitionState | monkchain/state_transition.go:148-263 | on objects, with snapshots and the deferred refund, exactly what `World.Transit` says of the accounts, the gas and the error |
| Blocks.CumulativeGas | monkchain/block_manager.go:219-237 | a receipt's cumulative gas is the running sum of gas minus gas left, and receipts and handled transactions correspond |
| Blocks.Replay | monkchain/block_manager.go:163-246 | run on the handled transactions, from the same state and against the receipts, everything comes out the same and nothing is dropped, in whatever orders storage is written, if no delete loses a slot |
| Blocks.TransitKeeps | monkchain/state_transition.go:148-263 | no account goes away |
| Blocks.KnownDropNothing | monkchain/block_manager.go:173-193 | if all senders have accounts, dropped transactions leave no trace |
| Blocks.ProcessSupply | monkchain/block_manager.go:163-246 | the transactions of a block change the supply by their losses only |
| Blocks.UnclesDistinct | monkchain/block_manager.go:383-402 | uncles of a rewarded block differ in their nonces from each other and from the block |
| Blocks.RewardSupply | monkchain/block_manager.go:379-419 | the rewards add the block reward and, per uncle, 1/32 and 15/16 of it |
| Blocks.MinedBlockAccepted | monkminer/miner.go:200-215 | a mined block is accepted and leads to the miner's own accounts, if all senders have accounts, its uncles are allowed and no delete loses a slot on either side |
| Blocks.BadUncleRejected | monkminer/miner.go:213 | a block with an uncle that is not allowed is rejected, though the miner does not look at the error |
| Blocks.UnknownSenderRejected | monkminer/miner.go:200-215 | a block mined from a transaction that is dropped for its nonce and whose sender had no account is rejected |
| BlockOrder.QuietPlans | monkstate/state.go:218-229 | an update of all accounts, whatever parts of their tries are loaded, loses no slot if no cleared slot of any account can take others with it at its turn |
| BlockOrder.CalmIffQuiet | monkstate/state.go:218-229 | with storage tries never loaded, if and only if |
| BlockOrder.RecordsCalm | monkstate/state.go:218-229 | accounts read from their records, of which slots are overwritten and less than 16 cleared, have what is read in every trie, in any orders |
| BlockOrder.MinedBlockOnTries | monkminer/miner.go:200-215 | a mined block is accepted if all senders have accounts, its uncles are allowed and both sides write storage so, each in its own orders and on its own tries, of which different parts may be loaded |
| BlockOrder.OrderRejects | monkchain/block_manager.go:219-233 | a block of two transactions mined with one order of a storage cache after the second is rejected with another, whenever the order decides what the account's trie, never loaded and canonical, has |
| BlockOrder.ClearingRejected | monkchain/block_manager.go:219-233 | for the codec of the source, a block of two calls: the first fills three slots such as 0, 256 and 257 of a contract without storage, the second clears one; whatever the orders of the first update, the trie is the same, and by those of the second the block is rejected |
| Blocks.BlockSupply | monkchain/block_manager.go:251-305 | the supply after an accepted block, whatever its storage tries lose |
| BlockManager.Handle | monkchain/block_manager.go:173-221 | one transaction on the state and the update after it, in the order given |
| BlockManager.ProcessTransactions | monkchain/block_manager.go:163-246 | the loop's receipts, handled transactions, gas and final accounts are those of `Blocks.Process`; an error if and only if a receipt differs |
| BlockManager.AccumelateRewards | monkchain/block_manager.go:379-419 | the loop pays exactly the rewards, or fails for an uncle that is not allowed with those before it paid |
| BlockManager.ProcessWithParent | monkchain/block_manager.go:251-305 | a block passes if and only if transactions, receipts, rewards and the final root agree |
| Vm.FreeInstructions | monkvm/vm.go:195-217 | an instruction is free if and only if it is STOP, SUICIDE or an SSTORE that clears a slot |
| Vm.RankNext | monkvm/closure.go:57-69 | the next place in the code is one further on, also when the counter is read modulo 2^64 |
| Vm.Closure.UseGas | monkvm/closure.go:94-104 | the gas falls by the amount or stays; given its own number it falls to nothing and none is recorded |
| Vm.Closure.ReturnGas | monkvm/closure.go:107-111 | the gas that comes back |
| Vm.Closure.Return | monkvm/closure.go:87-92 | what is left goes to the caller |
| Vm.Machine.Exec | monkvm/vm.go:1199-1252 | a call gives back between nothing and what it was handed |
| Vm.Machine.Hand | monkvm/vm.go:980-1075 | after a call or a creation at least 20 gas is gone |
| Vm.Machine.Step | monkvm/vm.go:160-1100 | the exact charge of an instruction, and that gas or the rest of the code gets less |
| Vm.Machine.RunClosure | monkvm/vm.go:94-1140 | every run ends, with all its nested runs; it never gains gas; and it takes at most (gas used + 1) times (longest code + 1) instructions in all |

## Left out

- Peers, NAT, RPC, configuration, logging, goroutines, locks and timers: each locked operation is one step.
- Signatures, proof of work and the hash functions themselves: foreign or given.
- Reads of the genesis contract and round-robin difficulty: the library they use is not part of this model.
- Checkpoints: a checkpoint stores a block without its parent.
- `DecodeWithReader` and `Decode_`: older decoders that `Value.Decode` does not use.
- The trie iterator's `Collect` and `Purge`, the bloom filter, the transaction pool, the key manager, the reactor and the disassembler: only easy members, or matters of timing.
- The stored block number: it counts additions and is not set back by a re-organisation.
- Wire.ReadMessages: messages whose payload is under 2^32 bytes, the width of the length field; a read that cuts a header is left to the error the source returns.
- The database is the map of trie nodes; records that other parts keep under other keys are not in it.
- Rlp.EncodingPrefixFree: holds also for lengths of 2^64 and more, which no Go slice has, because they get a prefix of their own here.
- NodeOps.GetState: once a value 00 has faded, a lookup may find it or nothing, as the source does by what else was put under the same hash.
- TrieObject.Trie.Each: not once a value 00 has faded.
- TrieObject.ParanoiaCheck: says nothing of a trie in which a key ends in an empty value, which an update with "" leaves and the walk calls back with.
- StorageTrie.SyncStorage: after a delete on loaded nodes that lost something, the slice error is not excluded, and a key may end in a branch with nothing in it; of such a trie the last clauses say nothing. Storage values never are 00, so a storage trie does not fade.
- StorageTrie.QuietCalm: one direction only where nodes were loaded and split since. What then folds depends on what else was put under the same hash, so a slot that can take others with it need not.
- TrieRuns.Run: tries never loaded; on others the shape, and so the root, depends on which branches folded, until `ParanoiaCheck` rebuilds it.
- ChainManager.Manager.Submit: testing and inserting are one step, as one caller does them; two callers in between each other are not modelled. It asks that the tree has none of the blocks: otherwise totals need not be true (`ChainManager.TestedTrue`, `ChainManager.SeenBlockMisweighed`), and a chain of which nothing is left panics.
- ChainManager.Manager.TestAndInsert: the same.
- State.State.Update: accounts marked for deletion; the rebuilding of the account trie by `ParanoiaCheck`, which `TrieObject.ParanoiaCheck` covers.
- State.State.Sync: the trie here has what it was last updated to. A trie that was copied while it had dirty nodes commits nothing (`NodeStore.CopyLosesDirt`), so that what is only in its cache is lost for others who open the database.
- World.TransitSupply: a contract is assumed to keep the supply and not to gain gas.
- Transition.StateTransition.TransitionState: a panic inside a run, which the source recovers from in the middle of its writes; messages posted for later.
- BlockManager.ProcessWithParent: the protocol's own validation of a block, and the hash over the receipts, which stands here as their equality. It starts from the parent's state: that a chain under test goes on with the state left by the block before (monkchain/block_manager.go:255-259), with its caches still filled, is not modelled.
- Blocks.MinedBlockAccepted: the same, for the side that checks the block.
- Vm.Machine.RunClosure: POST, which runs on gas nobody paid, RLPDECODE and RLPENCODE, which grow the memory outside the charge, and the logging instructions end a run here; memory is charged by offset and size, whereas a write of size 0 at a large offset (monkvm/stack.go:110-124; the return area of a call, CALLDATACOPY, CODECOPY) grows it for nothing; creation at an address in use, on which the source loops, does not occur.
- Balances under the whole virtual machine: after an inner revert the outer runs hold objects that were replaced, so contracts are given by their effect.
