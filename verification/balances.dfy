/**
 * `get_balance`: a participant's balance is recomputed from the whole chain
 * and the pending pools on every call.  `Balance` follows the program's
 * construction (one list of amounts per block, the pending list appended,
 * folded with `reduce`) and is proved equal to `NetBalance`, the same
 * quantity written as one flat ledger; the lemmas below describe how
 * admission, confirmation and mining move a balance.
 */
module Balances {
  import opened Chipsactions
  import opened Records
  import opened Ledger

  /** The part of a record a balance looks at. */
  datatype Entry = Entry(sender: string, recipient: string, amount: int)

  /** Whether a participant is matched against the sender or the recipient. */
  datatype Direction = Sent | Received

  /** The two record lists of a block. */
  datatype Kind = TxList | ChipList

  function Party(e: Entry, dir: Direction): string {
    if dir == Sent then e.sender else e.recipient
  }

  function TransactionEntries(txs: seq<Transaction>): (es: seq<Entry>)
    ensures |es| == |txs|
  {
    seq(|txs|, i requires 0 <= i < |txs| => Entry(txs[i].sender, txs[i].recipient, txs[i].amount))
  }

  function ChipsactionEntries(chips: seq<Chipsaction>): (es: seq<Entry>)
    ensures |es| == |chips|
  {
    seq(|chips|, i requires 0 <= i < |chips| => Entry(chips[i].sender, chips[i].recipient, chips[i].amount))
  }

  function BlockEntries(b: Block, kind: Kind): seq<Entry> {
    if kind == TxList then TransactionEntries(b.transactions) else ChipsactionEntries(b.chipsactions)
  }

  /** `[tx.amount for tx in records if tx.<party> == participant]` */
  function AmountsOf(entries: seq<Entry>, p: string, dir: Direction): seq<int> {
    if entries == [] then []
    else
      var last := entries[|entries| - 1];
      AmountsOf(entries[..|entries| - 1], p, dir) + (if Party(last, dir) == p then [last.amount] else [])
  }

  /** Python's `sum`. */
  function Sum(xs: seq<int>): int {
    if xs == [] then 0 else Sum(xs[..|xs| - 1]) + xs[|xs| - 1]
  }

  /** `reduce(lambda s, l: s + sum(l) if len(l) > 0 else s + 0, lists, 0)` */
  function Reduce(lists: seq<seq<int>>): int {
    if lists == [] then 0
    else
      var total := Reduce(lists[..|lists| - 1]);
      var amounts := lists[|lists| - 1];
      if |amounts| > 0 then total + Sum(amounts) else total + 0
  }

  /** `[[tx.amount for tx in block.<kind> if tx.<party> == participant] for block in chain]` */
  function Columns(chain: seq<Block>, kind: Kind, p: string, dir: Direction): seq<seq<int>> {
    if chain == [] then []
    else Columns(chain[..|chain| - 1], kind, p, dir) + [AmountsOf(BlockEntries(chain[|chain| - 1], kind), p, dir)]
  }

  /**
   * `get_balance(participant)` for the given chain and pending pools: the
   * per-block fold equals the flat ledger, everything received in confirmed
   * transactions and chipsactions minus everything sent in confirmed and
   * pending ones.
   */
  function Balance(chain: seq<Block>, openTransactions: seq<Transaction>, openChipsactions: seq<Chipsaction>,
                   p: string): (balance: int)
    ensures balance == NetBalance(chain, openTransactions, openChipsactions, p)
  {
    var pendingTx := TransactionEntries(openTransactions);
    var pendingChips := ChipsactionEntries(openChipsactions);
    var amountSent := Reduce(Columns(chain, TxList, p, Sent) + [AmountsOf(pendingTx, p, Sent)]);
    var amountSent1 := Reduce(Columns(chain, ChipList, p, Sent) + [AmountsOf(pendingChips, p, Sent)]);
    var amountReceived := Reduce(Columns(chain, TxList, p, Received));
    var amountReceived1 := Reduce(Columns(chain, ChipList, p, Received));
    ReduceColumns(chain, TxList, p, Sent);
    ReduceColumns(chain, ChipList, p, Sent);
    ReduceColumns(chain, TxList, p, Received);
    ReduceColumns(chain, ChipList, p, Received);
    ReduceAppend(Columns(chain, TxList, p, Sent), AmountsOf(pendingTx, p, Sent));
    ReduceAppend(Columns(chain, ChipList, p, Sent), AmountsOf(pendingChips, p, Sent));
    SumOfAmounts(pendingTx, p, Sent);
    SumOfAmounts(pendingChips, p, Sent);
    FlowAppend(Confirmed(chain, TxList), Confirmed(chain, ChipList), p, Received);
    FlowAppend(Confirmed(chain, TxList), Confirmed(chain, ChipList), p, Sent);
    FlowAppend(pendingTx, pendingChips, p, Sent);
    FlowAppend(ConfirmedEntries(chain), PendingEntries(openTransactions, openChipsactions), p, Sent);
    (amountReceived + amountReceived1) - (amountSent + amountSent1)
  }

  /** `get_balance` as a function of the participant, the way it is handed to the admission checks. */
  function BalanceLookup(chain: seq<Block>, openTransactions: seq<Transaction>,
                         openChipsactions: seq<Chipsaction>): string -> int
  {
    p => Balance(chain, openTransactions, openChipsactions, p)
  }

  // ---------------------------------------------------------------------
  // The flat ledger
  // ---------------------------------------------------------------------

  /** The total amount of the entries in which `p` is the given party. */
  function Flow(entries: seq<Entry>, p: string, dir: Direction): int {
    if entries == [] then 0
    else
      var last := entries[|entries| - 1];
      Flow(entries[..|entries| - 1], p, dir) + (if Party(last, dir) == p then last.amount else 0)
  }

  /** All records of one kind confirmed in the chain, block after block. */
  function Confirmed(chain: seq<Block>, kind: Kind): seq<Entry> {
    if chain == [] then []
    else Confirmed(chain[..|chain| - 1], kind) + BlockEntries(chain[|chain| - 1], kind)
  }

  function ConfirmedEntries(chain: seq<Block>): seq<Entry> {
    Confirmed(chain, TxList) + Confirmed(chain, ChipList)
  }

  function PendingEntries(openTransactions: seq<Transaction>, openChipsactions: seq<Chipsaction>): seq<Entry> {
    TransactionEntries(openTransactions) + ChipsactionEntries(openChipsactions)
  }

  /** Received in confirmed records, minus sent in confirmed and pending records. */
  function NetBalance(chain: seq<Block>, openTransactions: seq<Transaction>, openChipsactions: seq<Chipsaction>,
                      p: string): int
  {
    Flow(ConfirmedEntries(chain), p, Received)
      - Flow(ConfirmedEntries(chain) + PendingEntries(openTransactions, openChipsactions), p, Sent)
  }

  lemma {:induction false} FlowAppend(a: seq<Entry>, b: seq<Entry>, p: string, dir: Direction)
    ensures Flow(a + b, p, dir) == Flow(a, p, dir) + Flow(b, p, dir)
    decreases |b|
  {
    if b != [] {
      var b' := b[..|b| - 1];
      assert a + b == (a + b') + [b[|b| - 1]];
      assert (a + b)[..|a + b| - 1] == a + b';
      FlowAppend(a, b', p, dir);
    } else {
      assert a + b == a;
    }
  }

  lemma {:induction false} SumOfAmounts(entries: seq<Entry>, p: string, dir: Direction)
    ensures Sum(AmountsOf(entries, p, dir)) == Flow(entries, p, dir)
    decreases |entries|
  {
    if entries != [] {
      var prefix := entries[..|entries| - 1];
      var last := entries[|entries| - 1];
      SumOfAmounts(prefix, p, dir);
      if Party(last, dir) == p {
        var amounts := AmountsOf(prefix, p, dir) + [last.amount];
        assert amounts[..|amounts| - 1] == AmountsOf(prefix, p, dir);
      } else {
        assert AmountsOf(prefix, p, dir) + [] == AmountsOf(prefix, p, dir);
      }
    }
  }

  lemma ReduceAppend(lists: seq<seq<int>>, amounts: seq<int>)
    ensures Reduce(lists + [amounts]) == Reduce(lists) + Sum(amounts)
  {
    assert (lists + [amounts])[..|lists|] == lists;
  }

  lemma {:induction false} ReduceColumns(chain: seq<Block>, kind: Kind, p: string, dir: Direction)
    ensures Reduce(Columns(chain, kind, p, dir)) == Flow(Confirmed(chain, kind), p, dir)
    decreases |chain|
  {
    if chain != [] {
      var prefix := chain[..|chain| - 1];
      var entries := BlockEntries(chain[|chain| - 1], kind);
      ReduceColumns(prefix, kind, p, dir);
      ReduceAppend(Columns(prefix, kind, p, dir), AmountsOf(entries, p, dir));
      SumOfAmounts(entries, p, dir);
      FlowAppend(Confirmed(prefix, kind), entries, p, dir);
    }
  }

  // ---------------------------------------------------------------------
  // How the ledger's operations move a balance
  // ---------------------------------------------------------------------

  function BlockLedger(b: Block): seq<Entry> {
    TransactionEntries(b.transactions) + ChipsactionEntries(b.chipsactions)
  }

  lemma FlowOfOne(e: Entry, p: string, dir: Direction)
    ensures Flow([e], p, dir) == if Party(e, dir) == p then e.amount else 0
  {
    assert [e][..0] == [];
  }

  /** Entries in which `p` never takes the given part add nothing. */
  lemma {:induction false} FlowUninvolved(entries: seq<Entry>, p: string, dir: Direction)
    requires forall i :: 0 <= i < |entries| ==> Party(entries[i], dir) != p
    ensures Flow(entries, p, dir) == 0
    decreases |entries|
  {
    if entries != [] {
      FlowUninvolved(entries[..|entries| - 1], p, dir);
    }
  }

  /**
   * Admitting a transaction lowers its sender's balance by its amount and
   * leaves every other balance as it was (a pending transaction credits
   * nobody).
   */
  lemma BalanceAfterPendingTransaction(chain: seq<Block>, openTransactions: seq<Transaction>,
                                       openChipsactions: seq<Chipsaction>, t: Transaction, p: string)
    ensures Balance(chain, openTransactions + [t], openChipsactions, p)
            == Balance(chain, openTransactions, openChipsactions, p) - (if t.sender == p then t.amount else 0)
  {
    var e := Entry(t.sender, t.recipient, t.amount);
    var c := ConfirmedEntries(chain);
    var tx := TransactionEntries(openTransactions);
    var chips := ChipsactionEntries(openChipsactions);
    assert TransactionEntries(openTransactions + [t]) == tx + [e];
    assert PendingEntries(openTransactions + [t], openChipsactions) == (tx + [e]) + chips;
    FlowAppend(c, (tx + [e]) + chips, p, Sent);
    FlowAppend(tx + [e], chips, p, Sent);
    FlowAppend(tx, [e], p, Sent);
    FlowOfOne(e, p, Sent);
    FlowAppend(c, tx + chips, p, Sent);
    FlowAppend(tx, chips, p, Sent);
  }

  /** Admitting a chipsaction moves balances the same way. */
  lemma BalanceAfterPendingChipsaction(chain: seq<Block>, openTransactions: seq<Transaction>,
                                       openChipsactions: seq<Chipsaction>, c: Chipsaction, p: string)
    ensures Balance(chain, openTransactions, openChipsactions + [c], p)
            == Balance(chain, openTransactions, openChipsactions, p) - (if c.sender == p then c.amount else 0)
  {
    var e := Entry(c.sender, c.recipient, c.amount);
    var conf := ConfirmedEntries(chain);
    var tx := TransactionEntries(openTransactions);
    var chips := ChipsactionEntries(openChipsactions);
    assert ChipsactionEntries(openChipsactions + [c]) == chips + [e];
    assert PendingEntries(openTransactions, openChipsactions + [c]) == tx + (chips + [e]);
    FlowAppend(conf, tx + (chips + [e]), p, Sent);
    FlowAppend(tx, chips + [e], p, Sent);
    FlowAppend(chips, [e], p, Sent);
    FlowOfOne(e, p, Sent);
    FlowAppend(conf, tx + chips, p, Sent);
    FlowAppend(tx, chips, p, Sent);
  }

  /**
   * Confirming a block credits every recipient and debits every sender of
   * its transactions and chipsactions; the pending pools count as before.
   */
  lemma BalanceAfterBlock(chain: seq<Block>, openTransactions: seq<Transaction>,
                          openChipsactions: seq<Chipsaction>, b: Block, p: string)
    ensures Balance(chain + [b], openTransactions, openChipsactions, p)
            == Balance(chain, openTransactions, openChipsactions, p)
               + Flow(BlockLedger(b), p, Received) - Flow(BlockLedger(b), p, Sent)
  {
    var longer := chain + [b];
    assert longer[..|longer| - 1] == chain;
    var ct := Confirmed(chain, TxList);
    var cc := Confirmed(chain, ChipList);
    var bt := TransactionEntries(b.transactions);
    var bc := ChipsactionEntries(b.chipsactions);
    var pending := PendingEntries(openTransactions, openChipsactions);
    assert ConfirmedEntries(longer) == (ct + bt) + (cc + bc);
    forall dir: Direction
      ensures Flow(ConfirmedEntries(longer), p, dir) == Flow(ConfirmedEntries(chain), p, dir) + Flow(BlockLedger(b), p, dir)
    {
      FlowAppend(ct + bt, cc + bc, p, dir);
      FlowAppend(ct, bt, p, dir);
      FlowAppend(cc, bc, p, dir);
      FlowAppend(ct, cc, p, dir);
      FlowAppend(bt, bc, p, dir);
    }
    FlowAppend(ConfirmedEntries(longer), pending, p, Sent);
    FlowAppend(ConfirmedEntries(chain), pending, p, Sent);
  }

  /** A block none of whose records names `p` as sender or recipient leaves `p`'s balance unchanged. */
  lemma BalanceIgnoresBystanders(chain: seq<Block>, openTransactions: seq<Transaction>,
                                 openChipsactions: seq<Chipsaction>, b: Block, p: string)
    requires forall i :: 0 <= i < |b.transactions| ==> b.transactions[i].sender != p && b.transactions[i].recipient != p
    requires forall i :: 0 <= i < |b.chipsactions| ==> b.chipsactions[i].sender != p && b.chipsactions[i].recipient != p
    ensures Balance(chain + [b], openTransactions, openChipsactions, p)
            == Balance(chain, openTransactions, openChipsactions, p)
  {
    BalanceAfterBlock(chain, openTransactions, openChipsactions, b, p);
    var entries := BlockLedger(b);
    assert forall i :: 0 <= i < |entries| ==> entries[i].sender != p && entries[i].recipient != p by {
      forall i | 0 <= i < |entries|
        ensures entries[i].sender != p && entries[i].recipient != p
      {
        if i < |b.transactions| {
          assert entries[i] == TransactionEntries(b.transactions)[i];
        } else {
          assert entries[i] == ChipsactionEntries(b.chipsactions)[i - |b.transactions|];
        }
      }
    }
    FlowUninvolved(entries, p, Received);
    FlowUninvolved(entries, p, Sent);
  }

  /** The pending pools count only as debits of their senders. */
  lemma BalanceWithoutPending(chain: seq<Block>, openTransactions: seq<Transaction>,
                              openChipsactions: seq<Chipsaction>, p: string)
    ensures Balance(chain, openTransactions, openChipsactions, p)
            == Balance(chain, [], [], p) - Flow(PendingEntries(openTransactions, openChipsactions), p, Sent)
  {
    assert PendingEntries([], []) == [];
    assert ConfirmedEntries(chain) + [] == ConfirmedEntries(chain);
    FlowAppend(ConfirmedEntries(chain), PendingEntries(openTransactions, openChipsactions), p, Sent);
  }

  lemma MinedBlockLedger(openTransactions: seq<Transaction>, openChipsactions: seq<Chipsaction>,
                         mined: Block, miner: string, p: string, dir: Direction)
    requires mined.transactions == openTransactions + [RewardTransaction(miner)]
    requires mined.chipsactions == openChipsactions
    ensures Flow(BlockLedger(mined), p, dir)
            == Flow(PendingEntries(openTransactions, openChipsactions), p, dir)
               + (if Party(Entry(MiningSender, miner, MiningReward), dir) == p then MiningReward else 0)
  {
    var e := Entry(MiningSender, miner, MiningReward);
    var tx := TransactionEntries(openTransactions);
    var chips := ChipsactionEntries(openChipsactions);
    assert TransactionEntries(mined.transactions) == tx + [e];
    FlowAppend(tx + [e], chips, p, dir);
    FlowAppend(tx, [e], p, dir);
    FlowOfOne(e, p, dir);
    FlowAppend(tx, chips, p, dir);
  }

  /**
   * Mining moves the pending records into a block with a trailing reward and
   * empties the pools.  Every balance then gains what the pending records pay
   * it, the miner gains the reward, and the sentinel sender "MINING" pays it.
   */
  lemma BalanceAfterMining(chain: seq<Block>, openTransactions: seq<Transaction>,
                           openChipsactions: seq<Chipsaction>, miner: string,
                           index: int, previousHash: string, proof: int, timestamp: int, p: string)
    ensures var mined := Block(index, previousHash, openTransactions + [RewardTransaction(miner)],
                               openChipsactions, proof, timestamp);
            Balance(chain + [mined], [], [], p)
            == Balance(chain, openTransactions, openChipsactions, p)
               + Flow(PendingEntries(openTransactions, openChipsactions), p, Received)
               + (if p == miner then MiningReward else 0)
               - (if p == MiningSender then MiningReward else 0)
  {
    var mined := Block(index, previousHash, openTransactions + [RewardTransaction(miner)],
                       openChipsactions, proof, timestamp);
    BalanceAfterBlock(chain, [], [], mined, p);
    BalanceWithoutPending(chain, openTransactions, openChipsactions, p);
    MinedBlockLedger(openTransactions, openChipsactions, mined, miner, p, Received);
    MinedBlockLedger(openTransactions, openChipsactions, mined, miner, p, Sent);
  }
}
