/**
 * The node's ledger engine (`class Blockchain` of `blockchain.py`): the
 * chain, the two pending pools, the peer set and the "resolution needed"
 * flag, updated in place by admission, mining, block acceptance, conflict
 * resolution and the peer-set operations.
 */
module Blockchain {
  import opened Wrappers
  import opened Chipsactions
  import opened Records
  import opened External
  import opened Verification
  import opened Ledger
  import opened Balances

  /** `Block(0, '', [], [], 100, 0)` */
  const Genesis: Block := Block(0, "", [], [], 100, 0)

  class Blockchain {
    var chain: seq<Block>
    var openTransactions: seq<Transaction>
    var openChipsactions: seq<Chipsaction>
    var peerNodes: set<string>
    var resolveConflicts: bool
    const publicKey: Option<string>
    const nodeId: string
    /** The hash functions and signature checks of the collaborators. */
    const oracles: Oracles

    /** A fresh node: the genesis block alone, empty pools, no peers, no resolution pending. */
    constructor(publicKey: Option<string>, nodeId: string, oracles: Oracles)
      ensures chain == [Genesis] && VerifyChain(oracles, chain)
      ensures openTransactions == [] && openChipsactions == []
      ensures peerNodes == {} && !resolveConflicts
      ensures this.publicKey == publicKey && this.nodeId == nodeId && this.oracles == oracles
    {
      chain := [Genesis];
      openTransactions := [];
      openChipsactions := [];
      this.publicKey := publicKey;
      peerNodes := {};
      this.nodeId := nodeId;
      resolveConflicts := false;
      this.oracles := oracles;
      new;
      ShortChainIsValid(oracles, chain);
    }

    /** The `chain` property's getter; the copy it returns is a value the caller cannot use to alter the node. */
    method GetChain() returns (c: seq<Block>)
      ensures c == chain
    {
      c := chain;
    }

    /** The `chain` property's setter. */
    method SetChain(val: seq<Block>)
      modifies this`chain
      ensures chain == val
    {
      chain := val;
    }

    /** `hash_block(self.__chain[-1])` */
    function LastHash(): string
      reads this
      requires |chain| > 0
    {
      oracles.hashBlock(chain[|chain| - 1])
    }

    /**
     * `proof_of_work`: the least proof, counting up from 0, that is valid for
     * the pending pools and the hash of the last block.  The search only ends
     * when such a proof exists.
     */
    method ProofOfWork() returns (proof: int)
      requires |chain| > 0
      requires exists p: nat :: ValidProof(oracles, openTransactions, openChipsactions, LastHash(), p)
      ensures proof >= 0 && ValidProof(oracles, openTransactions, openChipsactions, LastHash(), proof)
      ensures forall q :: 0 <= q < proof ==> !ValidProof(oracles, openTransactions, openChipsactions, LastHash(), q)
    {
      var lastHash := oracles.hashBlock(chain[|chain| - 1]);
      ghost var bound: nat :| ValidProof(oracles, openTransactions, openChipsactions, lastHash, bound);
      proof := 0;
      while !ValidProof(oracles, openTransactions, openChipsactions, lastHash, proof)
        invariant 0 <= proof <= bound
        invariant forall q :: 0 <= q < proof ==> !ValidProof(oracles, openTransactions, openChipsactions, lastHash, q)
        decreases bound - proof
      {
        proof := proof + 1;
      }
    }

    /**
     * `get_balance(sender)`: the balance of `sender`, or of the node's own key
     * when no sender is given; `None` when there is neither.
     */
    function GetBalance(sender: Option<string>): (balance: Option<int>)
      reads this
      ensures balance.None? <==> sender.None? && publicKey.None?
      ensures sender.Some? ==> balance == Some(Balance(chain, openTransactions, openChipsactions, sender.value))
      ensures sender.None? && publicKey.Some? ==>
                balance == Some(Balance(chain, openTransactions, openChipsactions, publicKey.value))
    {
      if sender.None? then
        if publicKey.None? then None
        else Some(Balance(chain, openTransactions, openChipsactions, publicKey.value))
      else Some(Balance(chain, openTransactions, openChipsactions, sender.value))
    }

    /** `get_last_blockchain_value`: the last block, or `None` for an empty chain. */
    function GetLastBlockchainValue(): (last: Option<Block>)
      reads this
      ensures last.None? <==> |chain| == 0
      ensures last.Some? ==> last.value == chain[|chain| - 1] && last.value in chain
    {
      if |chain| < 1 then None else Some(chain[|chain| - 1])
    }

    /**
     * `add_transaction` (its local part): the transaction is queued exactly
     * when the sender's balance covers the amount and the signature verifies;
     * a queued transaction never leaves its sender's balance negative.
     */
    method AddTransaction(sender: string, recipient: string, signature: string, amount: int) returns (ok: bool)
      modifies this`openTransactions
      ensures ok <==> Balance(chain, old(openTransactions), openChipsactions, sender) >= amount
                      && oracles.verifyTransaction(Transaction(sender, recipient, signature, amount))
      ensures openTransactions == if ok then old(openTransactions) + [Transaction(sender, recipient, signature, amount)]
                                  else old(openTransactions)
      ensures ok ==> Balance(chain, openTransactions, openChipsactions, sender) >= 0
    {
      var transaction := Transaction(sender, recipient, signature, amount);
      ok := VerifyTransaction(oracles, transaction, BalanceLookup(chain, openTransactions, openChipsactions), true);
      if ok {
        BalanceAfterPendingTransaction(chain, openTransactions, openChipsactions, transaction, sender);
        openTransactions := openTransactions + [transaction];
      }
    }

    /** `add_chipsaction` (its local part): the same rule for chipsactions. */
    method AddChipsaction(sender: string, recipient: string, placeID: string, message: string,
                          signature: string, amount: int) returns (ok: bool)
      modifies this`openChipsactions
      ensures ok <==> Balance(chain, openTransactions, old(openChipsactions), sender) >= amount
                      && oracles.verifyChipsaction(Chipsaction(sender, recipient, placeID, message, signature, amount))
      ensures openChipsactions == if ok then old(openChipsactions) + [Chipsaction(sender, recipient, placeID, message, signature, amount)]
                                  else old(openChipsactions)
      ensures ok ==> Balance(chain, openTransactions, openChipsactions, sender) >= 0
    {
      var chipsaction := Chipsaction(sender, recipient, placeID, message, signature, amount);
      ok := VerifyChipsaction(oracles, chipsaction, BalanceLookup(chain, openTransactions, openChipsactions), true);
      if ok {
        BalanceAfterPendingChipsaction(chain, openTransactions, openChipsactions, chipsaction, sender);
        openChipsactions := openChipsactions + [chipsaction];
      }
    }

    /**
     * `mine_block` (its local part).  Without an own key, or when a pending
     * record's signature no longer verifies, nothing happens.  Otherwise the
     * block of the pending records, with the reward last and the least valid
     * proof, is appended and both pools are emptied.
     */
    method MineBlock(timestamp: int) returns (mined: Option<Block>)
      requires publicKey.Some? ==> |chain| > 0
      requires publicKey.Some? ==> exists p: nat :: ValidProof(oracles, openTransactions, openChipsactions, LastHash(), p)
      modifies this`chain, this`openTransactions, this`openChipsactions
      ensures mined.None? <==> || publicKey.None?
                               || (exists i :: 0 <= i < |old(openTransactions)| && !oracles.verifyTransaction(old(openTransactions)[i]))
                               || (exists i :: 0 <= i < |old(openChipsactions)| && !oracles.verifyChipsaction(old(openChipsactions)[i]))
      ensures mined.None? ==> && chain == old(chain)
                              && openTransactions == old(openTransactions)
                              && openChipsactions == old(openChipsactions)
      ensures mined.Some? ==> && chain == old(chain) + [mined.value]
                              && mined.value.index == |old(chain)|
                              && mined.value.previousHash == oracles.hashBlock(old(chain)[|old(chain)| - 1])
                              && mined.value.transactions == old(openTransactions) + [RewardTransaction(publicKey.value)]
                              && mined.value.chipsactions == old(openChipsactions)
                              && mined.value.timestamp == timestamp
                              && openTransactions == [] && openChipsactions == []
      // the proof is the least valid one for the pools that went into the block
      ensures mined.Some? ==>
                && mined.value.proof >= 0
                && ValidProof(oracles, old(openTransactions), old(openChipsactions), mined.value.previousHash, mined.value.proof)
                && forall q :: 0 <= q < mined.value.proof ==>
                     !ValidProof(oracles, old(openTransactions), old(openChipsactions), mined.value.previousHash, q)
      // a mined block passes the validator's checks, so a valid chain stays valid
      ensures mined.Some? ==> Succeeds(oracles, old(chain)[|old(chain)| - 1], mined.value)
      ensures VerifyChain(oracles, old(chain)) ==> VerifyChain(oracles, chain)
    {
      if publicKey.None? {
        return None;
      }
      var lastBlock := chain[|chain| - 1];
      var hashedBlock := oracles.hashBlock(lastBlock);
      var proof := ProofOfWork();
      var rewardTransaction := RewardTransaction(publicKey.value);

      var copiedTransactions := openTransactions;
      for i := 0 to |copiedTransactions|
        invariant forall k :: 0 <= k < i ==> oracles.verifyTransaction(copiedTransactions[k])
      {
        if !oracles.verifyTransaction(copiedTransactions[i]) {
          return None;
        }
      }
      copiedTransactions := copiedTransactions + [rewardTransaction];

      var copiedChipsactions := openChipsactions;
      for i := 0 to |copiedChipsactions|
        invariant forall k :: 0 <= k < i ==> oracles.verifyChipsaction(copiedChipsactions[k])
      {
        if !oracles.verifyChipsaction(copiedChipsactions[i]) {
          return None;
        }
      }

      var block := Block(|chain|, hashedBlock, copiedTransactions, copiedChipsactions, proof, timestamp);
      assert DropLast(block.transactions) == openTransactions;
      if VerifyChain(oracles, chain) {
        AppendKeepsChainValid(oracles, chain, block);
      }
      chain := chain + [block];
      openTransactions := [];
      openChipsactions := [];
      mined := Some(block);
    }

    /**
     * `add_block`: a block from a peer is appended when its proof (over its
     * transactions without the trailing reward) is valid and it names the
     * hash of the local last block; the pending records it confirms then leave
     * the pools.  Otherwise nothing changes.
     */
    method AddBlock(block: Block) returns (ok: bool)
      requires |chain| > 0
      modifies this`chain, this`openTransactions, this`openChipsactions
      ensures ok <==> && ValidProof(oracles, DropLast(block.transactions), block.chipsactions,
                                    block.previousHash, block.proof)
                      && oracles.hashBlock(old(chain)[|old(chain)| - 1]) == block.previousHash
      ensures !ok ==> && chain == old(chain)
                      && openTransactions == old(openTransactions)
                      && openChipsactions == old(openChipsactions)
      ensures ok ==> && chain == old(chain) + [block]
                     && openTransactions == Unconfirmed(old(openTransactions), block.transactions, TransactionMatches)
                     && openChipsactions == Unconfirmed(old(openChipsactions), block.chipsactions,
                                                        ChipsactionMatchesAsWritten)
      // the pools only shrink
      ensures multiset(openTransactions) <= multiset(old(openTransactions))
      ensures multiset(openChipsactions) <= multiset(old(openChipsactions))
      ensures VerifyChain(oracles, old(chain)) ==> VerifyChain(oracles, chain)
    {
      var proofIsValid := ValidProof(oracles, DropLast(block.transactions), block.chipsactions,
                                     block.previousHash, block.proof);
      var hashesMatch := oracles.hashBlock(chain[|chain| - 1]) == block.previousHash;
      if !proofIsValid || !hashesMatch {
        return false;
      }
      if VerifyChain(oracles, chain) {
        AppendKeepsChainValid(oracles, chain, block);
      }
      chain := chain + [block];
      var storedTransactions := openTransactions;
      var storedChipsactions := openChipsactions;
      openTransactions := RemoveMatched(storedTransactions, block.transactions, TransactionMatches);
      openChipsactions := RemoveMatched(storedChipsactions, block.chipsactions, ChipsactionMatchesAsWritten);
      ok := true;
    }

    /**
     * `resolve`, with the chains fetched from the peers given in the order
     * they were asked (`None` for a peer that could not be reached).  The
     * node adopts the winner, empties both pools exactly when it replaced its
     * chain, clears the resolution flag and reports whether it replaced.
     */
    method Resolve(peerChains: seq<Option<seq<Block>>>) returns (replaced: bool)
      modifies this`chain, this`openTransactions, this`openChipsactions, this`resolveConflicts
      ensures chain == Winner(oracles, old(chain), peerChains)
      ensures replaced <==> exists k :: 0 <= k < |peerChains| && Replaces(oracles, old(chain), peerChains[k])
      ensures replaced <==> chain != old(chain)
      ensures |chain| >= |old(chain)|
      ensures replaced ==> VerifyChain(oracles, chain) && openTransactions == [] && openChipsactions == []
      ensures !replaced ==> openTransactions == old(openTransactions) && openChipsactions == old(openChipsactions)
      ensures !resolveConflicts
    {
      var winnerChain := chain;
      var replace := false;
      for i := 0 to |peerChains|
        invariant winnerChain == Winner(oracles, old(chain), peerChains[..i])
        invariant replace <==> winnerChain != old(chain)
      {
        assert peerChains[..i + 1][..i] == peerChains[..i];
        var nodeChain := peerChains[i];
        if nodeChain.Some? {
          if |nodeChain.value| > |winnerChain| && VerifyChain(oracles, nodeChain.value) {
            winnerChain := nodeChain.value;
            replace := true;
          }
        }
      }
      assert peerChains[..|peerChains|] == peerChains;
      resolveConflicts := false;
      chain := winnerChain;
      if replace {
        openTransactions := [];
        openChipsactions := [];
      }
      replaced := replace;
    }

    /** `add_peer_node`: set insertion, so adding a known peer changes nothing. */
    method AddPeerNode(node: string)
      modifies this`peerNodes
      ensures peerNodes == old(peerNodes) + {node}
      ensures node in old(peerNodes) ==> peerNodes == old(peerNodes)
    {
      peerNodes := peerNodes + {node};
    }

    /** `remove_peer_node`: set discard, so removing an unknown peer changes nothing. */
    method RemovePeerNode(node: string)
      modifies this`peerNodes
      ensures peerNodes == old(peerNodes) - {node}
      ensures node !in old(peerNodes) ==> peerNodes == old(peerNodes)
    {
      peerNodes := peerNodes - {node};
    }
  }
}
