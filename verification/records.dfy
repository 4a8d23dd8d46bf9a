/**
 * The transaction and block records, in the shapes their constructors are
 * called with: `Transaction(sender, recipient, signature, amount)` and
 * `Block(index, previous_hash, transactions, chipsactions, proof, timestamp)`.
 * Both are immutable once built.
 */
module Records {
  import opened Chipsactions

  datatype Transaction = Transaction(sender: string, recipient: string, signature: string, amount: int)

  datatype Block = Block(
    index: int,
    previousHash: string,
    transactions: seq<Transaction>,
    chipsactions: seq<Chipsaction>,
    proof: int,
    timestamp: int)

  /** Python's `s[:-1]`: everything but the last element, and `[]` for `[]`. */
  function DropLast<T>(s: seq<T>): (r: seq<T>)
    ensures |s| > 0 ==> |r| == |s| - 1 && s == r + [s[|s| - 1]]
    ensures |s| == 0 ==> r == []
  {
    if |s| == 0 then [] else s[..|s| - 1]
  }
}
