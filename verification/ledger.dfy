/**
 * The pure rules of `blockchain.py` that the node's methods rely on: the
 * mining reward, the reconciliation of the pending pools with a block received
 * from a peer, and the choice of the chain that conflict resolution adopts.
 */
module Ledger {
  import opened Wrappers
  import opened Chipsactions
  import opened Records
  import opened External
  import opened Verification

  /** `MINING_REWARD` */
  const MiningReward: int := 10

  /** The sender of every reward record. */
  const MiningSender: string := "MINING"

  /** The record `mine_block` appends after the pending transactions. */
  function RewardTransaction(miner: string): (t: Transaction)
    ensures t.sender == MiningSender && t.recipient == miner
    ensures t.signature == "" && t.amount == MiningReward
  {
    Transaction(MiningSender, miner, "", MiningReward)
  }

  // ---------------------------------------------------------------------
  // Reconciling the pending pools with an accepted block
  // ---------------------------------------------------------------------

  /**
   * The test `add_block` applies to a pending transaction and an incoming
   * one: sender, recipient, amount and signature agree, which for a
   * transaction is plain equality.
   */
  predicate TransactionMatches(open: Transaction, incoming: Transaction): (m: bool)
    ensures m <==> open == incoming
  {
    && open.sender == incoming.sender
    && open.recipient == incoming.recipient
    && open.amount == incoming.amount
    && open.signature == incoming.signature
  }

  /**
   * The test `add_block` applies to a pending chipsaction and an incoming
   * one, as it is written: the pending sender is compared with the incoming
   * sender AND with the incoming place, the pending recipient with the incoming
   * recipient AND with the incoming message, then amount and signature.  The
   * pending place and message are never compared.
   */
  predicate ChipsactionMatchesAsWritten(open: Chipsaction, incoming: Chipsaction): (m: bool)
    // a match is a pending record equal to the incoming one except, possibly,
    // in place and message, against an incoming record whose place equals its
    // sender and whose message equals its recipient
    ensures m <==> && open.(placeID := incoming.placeID, message := incoming.message) == incoming
                   && incoming.placeID == incoming.sender
                   && incoming.message == incoming.recipient
    // so an identical pending chipsaction matches only in that case
    ensures open == incoming ==> (m <==> open.placeID == open.sender && open.message == open.recipient)
  {
    && open.sender == incoming.sender
    && open.recipient == incoming.recipient
    && open.sender == incoming.placeID
    && open.recipient == incoming.message
    && open.amount == incoming.amount
    && open.signature == incoming.signature
  }

  /** Some incoming record matches `x`. */
  predicate MatchedBy<T, U>(x: T, incoming: seq<U>, matches: (T, U) -> bool) {
    exists k :: 0 <= k < |incoming| && matches(x, incoming[k])
  }

  /**
   * What remains of a pool after every entry that some incoming record
   * matches has been removed, in the pool's original order.
   */
  function Unconfirmed<T(==,!new), U>(stored: seq<T>, incoming: seq<U>, matches: (T, U) -> bool): (r: seq<T>)
    ensures |r| <= |stored|
    ensures multiset(r) <= multiset(stored)
    ensures forall x :: x in r <==> x in stored && !MatchedBy(x, incoming, matches)
    ensures forall x :: !MatchedBy(x, incoming, matches) ==> multiset(r)[x] == multiset(stored)[x]
  {
    if stored == [] then []
    else
      var last := stored[|stored| - 1];
      assert stored == stored[..|stored| - 1] + [last];
      Unconfirmed(stored[..|stored| - 1], incoming, matches)
        + (if MatchedBy(last, incoming, matches) then [] else [last])
  }

  /**
   * `r` lists the entries of `s` at the strictly increasing `positions`:
   * it is `s` with some entries dropped and the rest in their original order.
   */
  predicate Picks<T(==)>(positions: seq<int>, r: seq<T>, s: seq<T>) {
    && |positions| == |r|
    && (forall k :: 0 <= k < |positions| ==> 0 <= positions[k] < |s| && r[k] == s[positions[k]])
    && (forall k, l :: 0 <= k < l < |positions| ==> positions[k] < positions[l])
  }

  /** Adding an entry at the end of a pool adds it to the survivors exactly when nothing matches it. */
  lemma UnconfirmedSnoc<T(!new), U>(prefix: seq<T>, last: T, incoming: seq<U>, matches: (T, U) -> bool)
    ensures Unconfirmed(prefix + [last], incoming, matches)
            == Unconfirmed(prefix, incoming, matches) + (if MatchedBy(last, incoming, matches) then [] else [last])
  {
    assert (prefix + [last])[..|prefix|] == prefix;
  }

  /** Picking from a pool stays a picking when the pool grows at the end. */
  lemma PicksGrow<T>(positions: seq<int>, r: seq<T>, s: seq<T>, x: T)
    requires Picks(positions, r, s)
    ensures Picks(positions, r, s + [x])
    ensures |s| !in positions
  {
    assert forall k :: 0 <= k < |positions| ==> (s + [x])[positions[k]] == s[positions[k]];
  }

  /** ... and also when the new last entry is picked as well. */
  lemma PicksGrowAndTake<T>(positions: seq<int>, r: seq<T>, s: seq<T>, x: T)
    requires Picks(positions, r, s)
    ensures Picks(positions + [|s|], r + [x], s + [x])
  {
    var q := positions + [|s|];
    forall k | 0 <= k < |q|
      ensures 0 <= q[k] < |s + [x]| && (r + [x])[k] == (s + [x])[q[k]]
    {
      if k < |positions| {
        assert q[k] == positions[k];
      }
    }
  }

  /** The positions of the pool entries that no incoming record matches, in increasing order. */
  function SurvivorPositions<T, U>(stored: seq<T>, incoming: seq<U>, matches: (T, U) -> bool): (positions: seq<int>)
    ensures forall k :: 0 <= k < |positions| ==> 0 <= positions[k] < |stored|
    ensures forall k, l :: 0 <= k < l < |positions| ==> positions[k] < positions[l]
    ensures forall j :: 0 <= j < |stored| ==> (j in positions <==> !MatchedBy(stored[j], incoming, matches))
  {
    if stored == [] then []
    else
      var n := |stored| - 1;
      var positions := SurvivorPositions(stored[..n], incoming, matches);
      assert forall j :: 0 <= j < n ==> stored[..n][j] == stored[j];
      positions + (if MatchedBy(stored[n], incoming, matches) then [] else [n])
  }

  /**
   * The survivors keep the pool's order: `Unconfirmed` is the pool read at
   * the positions of its unmatched entries, in increasing order.
   */
  lemma {:induction false} UnconfirmedKeepsOrder<T(!new), U>(stored: seq<T>, incoming: seq<U>,
                                                             matches: (T, U) -> bool)
    ensures Picks(SurvivorPositions(stored, incoming, matches), Unconfirmed(stored, incoming, matches), stored)
    decreases |stored|
  {
    if stored != [] {
      var n := |stored| - 1;
      var prefix := stored[..n];
      var last := stored[n];
      assert stored == prefix + [last];
      UnconfirmedKeepsOrder(prefix, incoming, matches);
      UnconfirmedSnoc(prefix, last, incoming, matches);
      var p := SurvivorPositions(prefix, incoming, matches);
      var u := Unconfirmed(prefix, incoming, matches);
      if MatchedBy(last, incoming, matches) {
        PicksGrow(p, u, prefix, last);
      } else {
        PicksGrowAndTake(p, u, prefix, last);
      }
    }
  }

  lemma MatchedByPrefix<T, U>(x: T, incoming: seq<U>, i: nat, matches: (T, U) -> bool)
    requires i < |incoming|
    ensures MatchedBy(x, incoming[..i + 1], matches) <==> MatchedBy(x, incoming[..i], matches) || matches(x, incoming[i])
  {
    if MatchedBy(x, incoming[..i + 1], matches) {
      var k :| 0 <= k < i + 1 && matches(x, incoming[..i + 1][k]);
      if k < i {
        assert incoming[..i][k] == incoming[..i + 1][k];
      }
    }
    if MatchedBy(x, incoming[..i], matches) {
      var k :| 0 <= k < i && matches(x, incoming[..i][k]);
      assert incoming[..i + 1][k] == incoming[..i][k];
    }
    if matches(x, incoming[i]) {
      assert incoming[..i + 1][i] == incoming[i];
    }
  }

  /**
   * The nested loops of `add_block`: for every incoming record, scan the copy
   * of the pool taken before the block was appended and remove each entry that
   * matches.  Python removes the entry object itself (a second removal of the
   * same object is caught and ignored); the model marks the entry's position
   * in the copy instead, and finally keeps the unmarked entries in order.
   */
  method RemoveMatched<T(==,!new), U>(stored: seq<T>, incoming: seq<U>, matches: (T, U) -> bool)
    returns (remaining: seq<T>)
    ensures remaining == Unconfirmed(stored, incoming, matches)
  {
    var kept := seq(|stored|, _ => true);
    for i := 0 to |incoming|
      invariant |kept| == |stored|
      invariant forall j :: 0 <= j < |stored| ==> (kept[j] <==> !MatchedBy(stored[j], incoming[..i], matches))
    {
      for j := 0 to |stored|
        invariant |kept| == |stored|
        invariant forall j' :: 0 <= j' < |stored| ==>
          (kept[j'] <==> !MatchedBy(stored[j'], incoming[..i], matches) && !(j' < j && matches(stored[j'], incoming[i])))
      {
        if matches(stored[j], incoming[i]) {
          kept := kept[j := false];
        }
      }
      forall j | 0 <= j < |stored|
        ensures kept[j] <==> !MatchedBy(stored[j], incoming[..i + 1], matches)
      {
        MatchedByPrefix(stored[j], incoming, i, matches);
      }
    }
    assert incoming[..|incoming|] == incoming;
    remaining := [];
    for j := 0 to |stored|
      invariant remaining == Unconfirmed(stored[..j], incoming, matches)
    {
      assert stored[..j + 1][..j] == stored[..j];
      if kept[j] {
        remaining := remaining + [stored[j]];
      }
    }
    assert stored[..|stored|] == stored;
  }

  // ---------------------------------------------------------------------
  // Conflict resolution
  // ---------------------------------------------------------------------

  /** A fetched chain that would replace `winner`: it arrived, it is strictly longer, and it is valid. */
  predicate Replaces(o: Oracles, winner: seq<Block>, fetched: Option<seq<Block>>) {
    fetched.Some? && |fetched.value| > |winner| && VerifyChain(o, fetched.value)
  }

  /**
   * The chain `resolve` ends with: starting from the local chain, each peer
   * chain in turn (`None` for a failed fetch) replaces the current winner when
   * it is strictly longer and valid.
   */
  function Winner(o: Oracles, local: seq<Block>, peerChains: seq<Option<seq<Block>>>): (w: seq<Block>)
    // never shorter than the local chain
    ensures |w| >= |local|
    // either the local chain, or a longer valid chain that some peer sent
    ensures w == local || (|w| > |local| && VerifyChain(o, w) && Some(w) in peerChains)
    // at least as long as every valid chain that arrived
    ensures forall k :: 0 <= k < |peerChains| && peerChains[k].Some? && VerifyChain(o, peerChains[k].value)
              ==> |peerChains[k].value| <= |w|
    // the local chain is kept exactly when no peer sent a longer valid chain
    ensures w != local <==> exists k :: 0 <= k < |peerChains| && Replaces(o, local, peerChains[k])
  {
    if peerChains == [] then local
    else
      var earlier := peerChains[..|peerChains| - 1];
      var fetched := peerChains[|peerChains| - 1];
      var w := Winner(o, local, earlier);
      assert forall k :: 0 <= k < |earlier| ==> earlier[k] == peerChains[k];
      if Replaces(o, w, fetched) then fetched.value else w
  }
}
