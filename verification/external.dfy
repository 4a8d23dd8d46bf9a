/**
 * The collaborators whose code lies outside the ledger engine: the block
 * hash and the SHA-256 string digest of `utility/hash_util.py`, and the RSA
 * signature checks of `wallet.py`.  Nothing is assumed about them beyond being
 * functions; the engine receives them as values.
 */
module External {
  import opened Chipsactions
  import opened Records

  /**
   * What `valid_proof` feeds to the digest: the rendering of the
   * transactions, of the chipsactions' ordered dictionaries, of the last hash
   * and of the proof, concatenated.  It is kept in structured form; the digest
   * below stands for SHA-256 applied to its string rendering.
   */
  datatype Guess = Guess(
    transactions: seq<Transaction>,
    chipsactions: seq<OrderedDict>,
    lastHash: string,
    proof: int)

  datatype Oracles = Oracles(
    hashBlock: Block -> string,              // hash_block
    hashString256: Guess -> string,          // hash_string_256 of the encoded guess
    verifyTransaction: Transaction -> bool,  // Wallet.verify_transaction
    verifyChipsaction: Chipsaction -> bool)  // Wallet.verify_chipsaction
}
