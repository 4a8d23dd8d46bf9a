/**
 * The static checks of `utility/verification.py`: the proof-of-work
 * predicate, chain validation, and the admission checks for single records
 * and for whole pools.
 */
module Verification {
  import opened Chipsactions
  import opened Records
  import opened External

  /** The difficulty rule: the hex digest starts with two zeros (a shorter digest never does). */
  predicate HashPrefix00(digest: string) {
    |digest| >= 2 && digest[..2] == "00"
  }

  /** `[tx.to_ordered_dict() for tx in chipsactions]` */
  function ChipDicts(chipsactions: seq<Chipsaction>): (ds: seq<OrderedDict>)
    ensures |ds| == |chipsactions|
    ensures forall i :: 0 <= i < |ds| ==> ds[i] == chipsactions[i].ToOrderedDict()
  {
    seq(|chipsactions|, i requires 0 <= i < |chipsactions| => chipsactions[i].ToOrderedDict())
  }

  /**
   * `valid_proof`: digest the guess built from the records, the last hash and
   * the candidate proof, and accept when the digest starts with "00".
   */
  predicate ValidProof(o: Oracles, transactions: seq<Transaction>, chipsactions: seq<Chipsaction>,
                       lastHash: string, proof: int): (valid: bool)
    ensures valid <==> var digest := o.hashString256(Guess(transactions, ChipDicts(chipsactions), lastHash, proof));
                       |digest| >= 2 && digest[0] == '0' && digest[1] == '0'
  {
    HashPrefix00(o.hashString256(Guess(transactions, ChipDicts(chipsactions), lastHash, proof)))
  }

  /**
   * The proof sees chipsactions only through their ordered dictionaries, so
   * replacing their signatures never changes whether a proof is valid.
   */
  lemma ValidProofIgnoresChipsactionSignatures(o: Oracles, transactions: seq<Transaction>,
                                               a: seq<Chipsaction>, b: seq<Chipsaction>,
                                               lastHash: string, proof: int)
    requires |a| == |b|
    requires forall i :: 0 <= i < |a| ==> SameButSignature(a[i], b[i])
    ensures ValidProof(o, transactions, a, lastHash, proof) == ValidProof(o, transactions, b, lastHash, proof)
  {
    forall i | 0 <= i < |a|
      ensures ChipDicts(a)[i] == ChipDicts(b)[i]
    {
      OrderedDictIgnoresOnlySignature(a[i], b[i]);
    }
    assert ChipDicts(a) == ChipDicts(b);
  }

  /**
   * The two checks `verify_chain` makes of a block after the genesis block:
   * it names the hash of its predecessor, and its proof is valid for its
   * transactions without the trailing reward, its chipsactions and that hash.
   */
  predicate Succeeds(o: Oracles, previous: Block, block: Block) {
    && block.previousHash == o.hashBlock(previous)
    && ValidProof(o, DropLast(block.transactions), block.chipsactions, block.previousHash, block.proof)
  }

  /** Block `i` of `chain` passes both checks against block `i - 1`. */
  predicate BlockValidAt(o: Oracles, chain: seq<Block>, i: int)
    requires 0 < i < |chain|
  {
    Succeeds(o, chain[i - 1], chain[i])
  }

  /**
   * `verify_chain`: the scan over `enumerate(blockchain)`, skipping index 0.
   * A chain is valid exactly when every block after the genesis block passes
   * both checks.
   */
  predicate VerifyChain(o: Oracles, chain: seq<Block>): (valid: bool)
    ensures valid <==> forall i | 0 < i < |chain| :: BlockValidAt(o, chain, i)
  {
    VerifyFromAll(o, chain, 0);
    VerifyFrom(o, chain, 0)
  }

  /** The scan from position `index` on, stopping at the first failing block. */
  predicate VerifyFrom(o: Oracles, chain: seq<Block>, index: nat)
    decreases |chain| - index
  {
    if index >= |chain| then true
    else if index == 0 then VerifyFrom(o, chain, 1)
    else if chain[index].previousHash != o.hashBlock(chain[index - 1]) then false
    else if !ValidProof(o, DropLast(chain[index].transactions), chain[index].chipsactions,
                        chain[index].previousHash, chain[index].proof) then false
    else VerifyFrom(o, chain, index + 1)
  }

  lemma {:induction false} VerifyFromAll(o: Oracles, chain: seq<Block>, index: nat)
    ensures VerifyFrom(o, chain, index) <==> forall i | index <= i < |chain| && 0 < i :: BlockValidAt(o, chain, i)
    decreases |chain| - index
  {
    if index < |chain| {
      VerifyFromAll(o, chain, index + 1);
      if 0 < index {
        assert VerifyFrom(o, chain, index) == (BlockValidAt(o, chain, index) && VerifyFrom(o, chain, index + 1));
      }
    }
  }

  /** Index 0 is never checked: the empty chain and every one-block chain are valid. */
  lemma ShortChainIsValid(o: Oracles, chain: seq<Block>)
    requires |chain| <= 1
    ensures VerifyChain(o, chain)
  {
  }

  /** A block after the genesis block that does not name its predecessor's hash invalidates the chain. */
  lemma BrokenLinkInvalidates(o: Oracles, chain: seq<Block>, i: int)
    requires 0 < i < |chain|
    requires chain[i].previousHash != o.hashBlock(chain[i - 1])
    ensures !VerifyChain(o, chain)
  {
    assert !BlockValidAt(o, chain, i);
  }

  /** A block after the genesis block whose proof fails invalidates the chain. */
  lemma BadProofInvalidates(o: Oracles, chain: seq<Block>, i: int)
    requires 0 < i < |chain|
    requires !ValidProof(o, DropLast(chain[i].transactions), chain[i].chipsactions,
                         chain[i].previousHash, chain[i].proof)
    ensures !VerifyChain(o, chain)
  {
    assert !BlockValidAt(o, chain, i);
  }

  /** Appending a block that passes both checks against the last block keeps a valid chain valid. */
  lemma AppendKeepsChainValid(o: Oracles, chain: seq<Block>, block: Block)
    requires VerifyChain(o, chain)
    requires |chain| > 0 && Succeeds(o, chain[|chain| - 1], block)
    ensures VerifyChain(o, chain + [block])
  {
    var longer := chain + [block];
    forall i | 0 < i < |longer|
      ensures BlockValidAt(o, longer, i)
    {
      if i < |chain| {
        assert BlockValidAt(o, chain, i);
      }
    }
  }

  /**
   * `verify_transaction`: with `checkFunds`, the sender's balance must cover
   * the amount and the signature must verify; without it, only the signature
   * is checked.  The sign of the amount is not looked at.
   */
  function VerifyTransaction(o: Oracles, transaction: Transaction, getBalance: string -> int,
                             checkFunds: bool): (ok: bool)
    ensures ok <==> o.verifyTransaction(transaction)
                    && (checkFunds ==> getBalance(transaction.sender) >= transaction.amount)
  {
    if checkFunds then
      var senderBalance := getBalance(transaction.sender);
      senderBalance >= transaction.amount && o.verifyTransaction(transaction)
    else
      o.verifyTransaction(transaction)
  }

  /** `verify_chipsaction`, the same rule for chipsactions. */
  function VerifyChipsaction(o: Oracles, chipsaction: Chipsaction, getBalance: string -> int,
                             checkFunds: bool): (ok: bool)
    ensures ok <==> o.verifyChipsaction(chipsaction)
                    && (checkFunds ==> getBalance(chipsaction.sender) >= chipsaction.amount)
  {
    if checkFunds then
      var senderBalance := getBalance(chipsaction.sender);
      senderBalance >= chipsaction.amount && o.verifyChipsaction(chipsaction)
    else
      o.verifyChipsaction(chipsaction)
  }

  /** `verify_transactions`: every signature verifies; balances are not consulted. */
  function VerifyTransactions(o: Oracles, openTransactions: seq<Transaction>, getBalance: string -> int): (ok: bool)
    ensures ok <==> forall i :: 0 <= i < |openTransactions| ==> o.verifyTransaction(openTransactions[i])
  {
    if openTransactions == [] then true
    else VerifyTransaction(o, openTransactions[0], getBalance, false)
         && VerifyTransactions(o, openTransactions[1..], getBalance)
  }

  /** `verify_chipsactions`: every signature verifies; balances are not consulted. */
  function VerifyChipsactions(o: Oracles, openChipsactions: seq<Chipsaction>, getBalance: string -> int): (ok: bool)
    ensures ok <==> forall i :: 0 <= i < |openChipsactions| ==> o.verifyChipsaction(openChipsactions[i])
  {
    if openChipsactions == [] then true
    else VerifyChipsaction(o, openChipsactions[0], getBalance, false)
         && VerifyChipsactions(o, openChipsactions[1..], getBalance)
  }
}
