# WIPcoin ledger engine in Dafny

This project models the ledger engine of WIPcoin, a toy peer-to-peer coin. A node keeps:

- a chain of blocks that starts with a fixed genesis block;
- two pools of pending records: plain transactions, and chipsactions (paid messages attached to a place);
- a set of peer addresses;
- a "resolution needed" flag.

The engine admits new records after a balance and signature check. It mines blocks by a proof-of-work search and pays the miner a reward of 10 from the sentinel sender `MINING`. It accepts blocks that peers send when their proof and their link to the local chain hold. It resolves conflicts by adopting the longest valid chain offered by a peer.

Modules, one per concern of the program:

- `Wrappers`: `Option`, for the places where the program returns `None`.
- `Chipsactions` (`chipsaction.py`): the chipsaction record, and the ordered dictionary of five entries that the proof serialiser sees of it. The record's fields follow the constructor's positional order, with the `place` argument stored as `placeID`. The recipient key keeps the program's spelling `recipinet`.
- `Records`: the `Transaction` and `Block` records, read off their constructor calls in `blockchain.py`. Also Python's `[:-1]` slice.
- `External`: the collaborators outside the engine, as values the engine is given. These are the block hash, the SHA-256 digest and the two signature checks.
- `Verification` (`utility/verification.py`): `valid_proof`, `verify_chain` and the admission checks.
- `Ledger` (pure rules of `blockchain.py`): the mining reward, the pool reconciliation of `add_block` and the winner of `resolve`.
- `Balances` (`get_balance`): the balance as the program computes it, proved equal to a flat ledger, with lemmas on how each operation moves a balance.
- `Blockchain`: the class `Blockchain`, whose methods update the chain, the pools, the peer set and the flag in place.

One removal test in `add_block` is modelled literally. When `add_block` removes confirmed chipsactions from the pending pool (`blockchain.py`, line 318), it compares the pending record's sender, recipient, amount and signature with the incoming record's fields. It also compares the pending sender with the incoming `placeID` and the pending recipient with the incoming `message`. It never compares the pending record's own place or message. The model keeps this test as written (`Ledger.ChipsactionMatchesAsWritten`). Its contract states the consequence: a pending chipsaction identical to a confirmed one stays pending unless its place equals its sender and its message equals its recipient.

## Model

| member | source | states |
|---|---|---|
| `Chipsactions.Chipsaction.ToOrderedDict` | WIPcoin/chipsaction.py:24-26 | exactly five entries with keys sender, recipinet, placeID, message, amount in that order; reading them back with the signature supplied gives the record again |
| `Chipsactions.OrderedDictIgnoresOnlySignature` | WIPcoin/chipsaction.py:16-26 | two chipsactions have equal ordered dictionaries iff they agree on every field except possibly the signature, so the dictionary depends on the fields and omits the signature |
| `Records.DropLast` | WIPcoin/utility/verification.py:34 | `s[:-1]`: the sequence without its last element, and empty for the empty sequence |
| `Verification.ValidProofIgnoresChipsactionSignatures` | WIPcoin/utility/verification.py:18-24 | the proof predicate, i.e. "00" prefix of the digest of (transactions, chipsaction dictionaries, last hash, proof), does not change when the chipsactions' signatures change |
| `Verification.ValidProof` | WIPcoin/utility/verification.py:9-24 | `valid_proof`: digests the guess built from the transactions, the chipsactions' ordered dictionaries, the last hash and the proof; true iff the digest has at least two characters and both of the first two are `0` |
| `Verification.VerifyChain` | WIPcoin/utility/verification.py:26-37 | `verify_chain`: the scan that skips index 0 and stops at the first failure accepts exactly when every block i >= 1 names the hash of block i-1 and has a valid proof over its transactions without the last one |
| `Verification.ShortChainIsValid` | WIPcoin/utility/verification.py:29-31 | index 0 is never checked, so the empty chain and every one-block chain are valid |
| `Verification.BrokenLinkInvalidates` | WIPcoin/utility/verification.py:32-33 | a block i >= 1 whose previous hash differs from the hash of block i-1 makes the chain invalid |
| `Verification.BadProofInvalidates` | WIPcoin/utility/verification.py:34-36 | a block i >= 1 whose proof fails makes the chain invalid |
| `Verification.AppendKeepsChainValid` | WIPcoin/utility/verification.py:29-37 | appending a block that links to the last block and carries a valid proof keeps a valid chain valid |
| `Verification.VerifyTransaction` | WIPcoin/utility/verification.py:39-50 | with the funds check: balance of the sender >= amount and the signature verifies; without it: the signature alone; the sign of the amount is never checked |
| `Verification.VerifyChipsaction` | WIPcoin/utility/verification.py:52-63 | the same rule for a chipsaction |
| `Verification.VerifyTransactions` | WIPcoin/utility/verification.py:65-68 | true iff every transaction's signature verifies; the balance function is never consulted |
| `Verification.VerifyChipsactions` | WIPcoin/utility/verification.py:70-73 | true iff every chipsaction's signature verifies; balances are ignored |
| `Ledger.RewardTransaction` | WIPcoin/blockchain.py:249-250 | the reward record: sender `MINING`, recipient the miner, empty signature, amount 10 |
| `Ledger.TransactionMatches` | WIPcoin/blockchain.py:310 | the removal test on sender, recipient, amount and signature is exactly equality of transactions |
| `Ledger.ChipsactionMatchesAsWritten` | WIPcoin/blockchain.py:318 | the literal removal test holds iff the pending record equals the incoming one up to place and message and the incoming place equals its sender and its message its recipient; an identical pending chipsaction matches only in that case |
| `Ledger.Unconfirmed` | WIPcoin/blockchain.py:306-322 | the pool after reconciliation is no longer and a sub-multiset of the pool before; a record stays iff no incoming record matches it, and unmatched records keep their multiplicity |
| `Ledger.SurvivorPositions` | WIPcoin/blockchain.py:306-322 | the positions of the pool entries that no incoming record matches: in range, strictly increasing, and containing a position iff its entry is unmatched |
| `Ledger.UnconfirmedKeepsOrder` | WIPcoin/blockchain.py:306-322 | the reconciled pool is the old pool read at exactly the unmatched positions in increasing order, so the survivors keep their original order (`list.remove` never reorders) |
| `Ledger.RemoveMatched` | WIPcoin/blockchain.py:304-322 | the nested loops over incoming records and the stored copy of the pool leave exactly `Unconfirmed` of the pool |
| `Ledger.Winner` | WIPcoin/blockchain.py:329-350 | the chain resolve ends with is never shorter than the local one; it is the local chain or a strictly longer valid chain a peer sent; it is at least as long as every valid chain that arrived; it differs from the local chain iff some peer sent a longer valid chain |
| `Balances.Balance` | WIPcoin/blockchain.py:146-181 | `get_balance`: the per-block lists of amounts (the pending lists appended on the sent side) folded with `reduce`; proved equal to `NetBalance`, which is received in confirmed transactions and chipsactions minus sent in confirmed and pending ones |
| `Balances.BalanceAfterPendingTransaction` | WIPcoin/blockchain.py:148-155 | queuing a transaction lowers its sender's balance by its amount and leaves every other balance unchanged, the recipient's included |
| `Balances.BalanceAfterPendingChipsaction` | WIPcoin/blockchain.py:157-164 | the same for a queued chipsaction |
| `Balances.BalanceWithoutPending` | WIPcoin/blockchain.py:150-164 | pending records count only as debits of their senders |
| `Balances.BalanceAfterBlock` | WIPcoin/blockchain.py:146-181 | confirming a block adds what its records pay a participant and subtracts what they charge the participant |
| `Balances.BalanceIgnoresBystanders` | WIPcoin/blockchain.py:146-181 | a block none of whose records names the participant as sender or recipient leaves the balance unchanged |
| `Balances.BalanceAfterMining` | WIPcoin/blockchain.py:249-267 | after mining, each balance gains what the pending records paid it, the miner gains 10 and the sender `MINING` loses 10 |
| `Blockchain.Blockchain.constructor` | WIPcoin/blockchain.py:31-43 | a fresh node holds only the genesis block `Block(0,'',[],[],100,0)`, which is a valid chain; both pools and the peer set are empty and no resolution is pending |
| `Blockchain.Blockchain.GetChain` | WIPcoin/blockchain.py:47-49 | the getter returns the current chain as a value |
| `Blockchain.Blockchain.SetChain` | WIPcoin/blockchain.py:52-54 | the setter replaces the chain and nothing else |
| `Blockchain.Blockchain.ProofOfWork` | WIPcoin/blockchain.py:126-134 | returns the least proof >= 0 valid for the pending pools and the last block's hash, and changes no state |
| `Blockchain.Blockchain.GetBalance` | WIPcoin/blockchain.py:136-181 | `None` iff neither a sender nor an own key is given; otherwise the balance of the sender, or of the own key |
| `Blockchain.Blockchain.GetLastBlockchainValue` | WIPcoin/blockchain.py:183-187 | `None` for an empty chain, otherwise its last block |
| `Blockchain.Blockchain.AddTransaction` | WIPcoin/blockchain.py:190-213 | queues the transaction iff the sender's balance covers the amount and the signature verifies; on success exactly that record is appended, on failure the pool is unchanged; a queued transaction leaves the sender's balance >= 0 |
| `Blockchain.Blockchain.AddChipsaction` | WIPcoin/blockchain.py:215-240 | the same for chipsactions and their pool |
| `Blockchain.Blockchain.MineBlock` | WIPcoin/blockchain.py:242-268 | no change and no block without an own key or when a pending signature fails; otherwise it appends the block with index = old length, the last block's hash, the pending transactions followed by the reward, the pending chipsactions and the least valid proof; it empties both pools; the block passes the validator's checks, so a valid chain stays valid |
| `Blockchain.Blockchain.AddBlock` | WIPcoin/blockchain.py:286-324 | accepts iff the proof over the transactions without the last one is valid and the block names the local last hash; on rejection nothing changes; on acceptance the chain grows by exactly that block and each pool becomes `Unconfirmed` of itself, so the pools only shrink; a valid chain stays valid |
| `Blockchain.Blockchain.Resolve` | WIPcoin/blockchain.py:326-358 | the chain becomes `Winner` of the local chain and the fetched chains, so it never shrinks; the result is true iff the chain was replaced, iff some peer sent a longer valid chain; both pools are emptied iff it was replaced; the resolution flag is cleared |
| `Blockchain.Blockchain.AddPeerNode` | WIPcoin/blockchain.py:360-367 | set insertion; adding a known peer changes nothing; chain and pools are untouched |
| `Blockchain.Blockchain.RemovePeerNode` | WIPcoin/blockchain.py:369-376 | set discard; removing an unknown peer changes nothing; chain and pools are untouched |

`valid_proof` is a Dafny predicate, so it is deterministic in its inputs by construction. A fresh node's chain is the genesis block alone. Mining, block acceptance and resolution never shorten the chain; only the `chain` setter can.

## Left out

- Snapshot files: `load_data` and `save_data` are file I/O and JSON encoding. A fresh node behaves as if no snapshot file exists, and saving has no effect on the model.
- Broadcasts: the HTTP posts in `add_transaction`, `add_chipsaction` and `mine_block`, and the HTTP fetch in `resolve`, are not modelled. `resolve` receives the fetched chains as a sequence of optional chains, with `None` for a peer that could not be reached. The `is_receiving` argument only decides whether to broadcast, so the model drops it.
- Blockchain.Blockchain.AddTransaction: the program returns False when a peer answers a broadcast with status 400 or 500, even though the transaction was already queued. The model returns whether the record was queued. The same holds for `AddChipsaction`.
- Blockchain.Blockchain.MineBlock: a peer that answers the block broadcast with status 409 sets the resolution flag in the program. The model never sets the flag, because it depends on the network.
- Hashing: `hash_block` and `hash_string_256` (in `utility/hash_util.py`) are arbitrary functions, given as values. The string that `valid_proof` digests is kept structured (`External.Guess`) rather than rendered with Python's `str()`.
- Transactions enter that guess as whole records, because `transaction.py` is not part of this model. Its `to_ordered_dict` may omit fields.
- Signatures: `Wallet.verify_transaction` and `Wallet.verify_chipsaction` (RSA, in `wallet.py`) are arbitrary predicates, given as values.
- Blockchain.Blockchain.ProofOfWork: the program's search does not end when no valid proof exists. The method therefore requires that one exists. `MineBlock` requires it too, but only when the node has a key.
- Blockchain.Blockchain.MineBlock: when the node has a key, it requires a non-empty chain, because the program's `self.__chain[-1]` raises an error on an empty one. Without a key the program returns `None` before reading the chain, and so does the model, on any chain.
- Blockchain.Blockchain.AddBlock: it requires a non-empty chain for the same reason (`self.chain[-1]`).
- Blockchain.Blockchain.AddBlock: the raw block dictionary is modelled as an already reconstructed `Block`, since rebuilding its records keeps every field. The model removes a confirmed entry from a pool by its position in the copy of the pool taken before the loops. This has the same effect as Python's `list.remove` of that entry object, and a repeated removal is ignored as the program ignores it.
- Amounts are integers, not floating-point numbers. The default amount of 1.0 is not modelled, and neither is a `None` sender.
- Timestamps: the wall-clock default of `Block` is a parameter of `MineBlock`.
- Output: `print` calls and the `Printable` base class.
- Concurrency: the model is a single sequential node.
