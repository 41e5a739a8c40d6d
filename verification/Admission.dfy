/** What the ledger lets in, in terms of the transaction, the block and the accounts alone: when a
    transaction executes or is accepted, when a block is applied, and what mining puts into one. */
module Admission {
  import opened Basics
  import opened ChainTypes
  import opened Executor
  import opened Merkle
  import opened Ledger

  // ---------------------------------------------------------------------------------
  // One transaction

  /** Signed by the sender's key, meant for this chain, and without a transfer of nothing. */
  predicate Genuine(k: Crypto, tx: Transaction, chainId: string) {
    && k.authentic(tx) && tx.chainId == chainId
    && forall x <- tx.messages :: x.Transfer? ==> 0 < x.amount
  }

  function Price(tx: Transaction): nat {
    Transferred(tx.messages) + tx.fee
  }

  /** The balance of `a` once the sender has paid. */
  function Left(m: Accounts, tx: Transaction, a: Address): int {
    if a == tx.sender then Get(m, a).balance - Price(tx) else Get(m, a).balance
  }

  /** Every recipient can hold what it has left and all it is sent. */
  ghost predicate Room(m: Accounts, tx: Transaction) {
    forall a: Address :: 0 < Received(tx.messages, a) ==> Left(m, tx, a) + Received(tx.messages, a) < TWO_128
  }

  lemma {:induction false} ReceivesSomething(ms: seq<TxMessage>, x: TxMessage)
    requires x in ms && x.Transfer?
    ensures x.amount <= Received(ms, x.to)
  {
    var front, last := ms[..|ms| - 1], ms[|ms| - 1];
    assert ms == front + [last];
    if x != last { ReceivesSomething(front, x); }
  }

  lemma {:induction false} ReceivedFromSome(ms: seq<TxMessage>, a: Address)
    requires 0 < Received(ms, a)
    ensures exists x <- ms :: x.Transfer? && x.to == a
  {
    var front, last := ms[..|ms| - 1], ms[|ms| - 1];
    assert ms == front + [last];
    if !(last.Transfer? && last.to == a) { ReceivedFromSome(front, a); }
  }

  /** The checks before anything is written, one by one and in this order. */
  lemma RefusedWhen(k: Crypto, m: Accounts, tx: Transaction, chainId: string)
    ensures var no := Refusal(k, m, tx, chainId);
      var sender := Get(m, tx.sender);
      no == if !Genuine(k, tx, chainId) then Some(Unauthorized)
            else if tx.nonce != sender.nonce then Some(InvalidNonce)
            else if Price(tx) >= TWO_128 then Some(CostOverflow)
            else if Price(tx) > sender.balance then Some(InsufficientFunds)
            else None
  {
    CostIsTransferred(tx.messages);
  }

  lemma RoomIsRoomy(k: Crypto, m: Accounts, tx: Transaction, chainId: string)
    requires Refusal(k, m, tx, chainId).None?
    ensures Roomy(m[tx.sender := Debited(m, tx)], tx.messages) <==> Room(m, tx)
  {
    var n := m[tx.sender := Debited(m, tx)];
    RefusedWhen(k, m, tx, chainId);
    CostIsTransferred(tx.messages);
    assert forall a: Address :: Get(n, a).balance == Left(m, tx, a);
    if Room(m, tx) {
      forall x <- tx.messages | x.Transfer? ensures Get(n, x.to).balance + Received(tx.messages, x.to) < TWO_128 {
        ReceivesSomething(tx.messages, x);
      }
    }
    if Roomy(n, tx.messages) {
      forall a: Address | 0 < Received(tx.messages, a) ensures Left(m, tx, a) + Received(tx.messages, a) < TWO_128 {
        ReceivedFromSome(tx.messages, a);
      }
    }
  }

  /** When a transaction executes: it is genuine, carries the nonce of its sender, the sender can
      pay, and every recipient has room. Each other outcome belongs to the first condition that
      fails. */
  lemma OutcomeExactly(k: Crypto, m: Accounts, tx: Transaction, height: nat, chainId: string)
    ensures var outcome := Execute(k, m, tx, height, chainId).outcome;
      var sender := Get(m, tx.sender);
      outcome == if !Genuine(k, tx, chainId) then Rejected(Unauthorized)
                 else if tx.nonce != sender.nonce then Rejected(InvalidNonce)
                 else if Price(tx) >= TWO_128 then Rejected(CostOverflow)
                 else if Price(tx) > sender.balance then Rejected(InsufficientFunds)
                 else if !Room(m, tx) then Rejected(CreditOverflow)
                 else Executed(Receipt(k.txHash(tx), height, true, 21_000, None, []))
  {
    RefusedWhen(k, m, tx, chainId);
    ExecutesExactly(k, m, tx, height, chainId);
    if Refusal(k, m, tx, chainId).None? { RoomIsRoomy(k, m, tx, chainId); }
  }

  /** What an executed transaction does to every account, in numbers. */
  lemma AccountsExactly(k: Crypto, m: Accounts, tx: Transaction, height: nat, chainId: string, a: Address)
    requires Execute(k, m, tx, height, chainId).outcome.Executed?
    ensures var before, after := Get(m, a), Get(Execute(k, m, tx, height, chainId).accounts, a);
      && after.balance == Left(m, tx, a) + Received(tx.messages, a)
      && after.nonce == before.nonce + (if a == tx.sender && before.nonce < 0xFFFF_FFFF_FFFF_FFFF then 1 else 0)
      && after.codeHash == before.codeHash && after.storageRoot == before.storageRoot
  {
    RefusedWhen(k, m, tx, chainId);
    CostIsTransferred(tx.messages);
    var d := Debited(m, tx);
    CreditsReach(Credits(m[tx.sender := d], [PutAccount(tx.sender, d)], true), tx.messages, a);
  }

  /** When a submitted transaction is accepted: it is neither included nor pending, genuine, of the
      sender's nonce and covered. Acceptance appends it, and nothing else ever changes. */
  lemma SubmitExactly(k: Crypto, s: LedgerState, tx: Transaction)
    ensures var (t, r) := Submit(k, s, tx);
      var sender := Get(AccountsOf(s), tx.sender);
      && r == (if k.txHash(tx) in s.txIndex then Refused(AlreadyIncluded)
               else if exists p <- s.mempool :: k.txHash(p) == k.txHash(tx) then Refused(AlreadyPending)
               else if !Genuine(k, tx, s.genesis.chainId) then Refused(NotExecutable(Unauthorized))
               else if tx.nonce != sender.nonce then Refused(NotExecutable(InvalidNonce))
               else if Price(tx) >= TWO_128 then Refused(NotExecutable(CostOverflow))
               else if Price(tx) > sender.balance then Refused(NotExecutable(InsufficientFunds))
               else Accepted(k.txHash(tx)))
      && t == s.(mempool := if r.Accepted? then s.mempool + [tx] else s.mempool)
  {
    RefusedWhen(k, AccountsOf(s), tx, s.genesis.chainId);
    assert forall i :: 0 <= i < |s.mempool| ==> s.mempool[i] in s.mempool;
  }

  // ---------------------------------------------------------------------------------
  // Transactions in turn

  /** The accounts after executing all of `txs` one after the other, whatever becomes of each. */
  function InTurn(k: Crypto, chainId: string, height: nat, m: Accounts, txs: seq<Transaction>): Accounts {
    if txs == [] then m
    else Execute(k, InTurn(k, chainId, height, m, txs[..|txs| - 1]), txs[|txs| - 1], height, chainId).accounts
  }

  /** Transaction `i` executes on what the ones before it have left. */
  predicate ExecutesAt(k: Crypto, chainId: string, height: nat, m: Accounts, txs: seq<Transaction>, i: nat)
    requires i < |txs|
  {
    Execute(k, InTurn(k, chainId, height, m, txs[..i]), txs[i], height, chainId).outcome.Executed?
  }

  predicate AllExecute(k: Crypto, chainId: string, height: nat, m: Accounts, txs: seq<Transaction>) {
    forall i :: 0 <= i < |txs| ==> ExecutesAt(k, chainId, height, m, txs, i)
  }

  function ReceiptOf(k: Crypto, height: nat, tx: Transaction): Receipt {
    Receipt(k.txHash(tx), height, true, 21_000, None, [])
  }

  function ReceiptsOf(k: Crypto, height: nat, txs: seq<Transaction>): seq<Receipt> {
    seq(|txs|, i requires 0 <= i < |txs| => ReceiptOf(k, height, txs[i]))
  }

  lemma ReceiptsOneMore(k: Crypto, height: nat, txs: seq<Transaction>, tx: Transaction)
    ensures ReceiptsOf(k, height, txs + [tx]) == ReceiptsOf(k, height, txs) + [ReceiptOf(k, height, tx)]
  {
  }

  lemma ExecutesAtPrefix(k: Crypto, chainId: string, height: nat, m: Accounts, txs: seq<Transaction>, i: nat)
    requires i < |txs| - 1
    ensures ExecutesAt(k, chainId, height, m, txs, i) <==> ExecutesAt(k, chainId, height, m, txs[..|txs| - 1], i)
  {
    assert txs[..|txs| - 1][..i] == txs[..i];
  }

  lemma AllExecuteOneMore(k: Crypto, chainId: string, height: nat, m: Accounts, txs: seq<Transaction>)
    requires txs != []
    ensures AllExecute(k, chainId, height, m, txs) <==>
      AllExecute(k, chainId, height, m, txs[..|txs| - 1]) && ExecutesAt(k, chainId, height, m, txs, |txs| - 1)
  {
    var front := txs[..|txs| - 1];
    forall i | 0 <= i < |front|
      ensures ExecutesAt(k, chainId, height, m, txs, i) <==> ExecutesAt(k, chainId, height, m, front, i)
    {
      ExecutesAtPrefix(k, chainId, height, m, txs, i);
    }
    if AllExecute(k, chainId, height, m, front) && ExecutesAt(k, chainId, height, m, txs, |txs| - 1) {
      forall i | 0 <= i < |txs| ensures ExecutesAt(k, chainId, height, m, txs, i) {
        assert i < |front| ==> ExecutesAt(k, chainId, height, m, front, i);
      }
    }
  }

  /** The applying loop gets through exactly when all execute in turn. */
  lemma {:induction false} ApplyInTurn(k: Crypto, chainId: string, height: nat, m: Accounts, txs: seq<Transaction>)
    ensures var b := ApplyAll(k, chainId, height, m, txs);
      && (!b.failed <==> AllExecute(k, chainId, height, m, txs))
      && (!b.failed ==> b.accounts == InTurn(k, chainId, height, m, txs) && b.receipts == ReceiptsOf(k, height, txs))
  {
    if txs != [] {
      var front, tx := txs[..|txs| - 1], txs[|txs| - 1];
      ApplyInTurn(k, chainId, height, m, front);
      AllExecuteOneMore(k, chainId, height, m, txs);
      OutcomeExactly(k, InTurn(k, chainId, height, m, front), tx, height, chainId);
      ReceiptsOneMore(k, height, front, tx);
      assert front + [tx] == txs;
    }
  }

  /** The Merkle root of the transactions' hashes. */
  function TxsRootOf(k: Crypto, txs: seq<Transaction>): Hash32 {
    TreeRoot(k.hash, seq(|txs|, i requires 0 <= i < |txs| => k.txHash(txs[i])))
  }

  /** The Merkle root of the hashes of the transactions' receipts. */
  function ReceiptsRootOf(k: Crypto, height: nat, txs: seq<Transaction>): Hash32 {
    TreeRoot(k.hash, seq<Hash32>(|txs|, i requires 0 <= i < |txs| => k.receiptHash(ReceiptOf(k, height, txs[i]))))
  }

  lemma RootsOfReceipts(k: Crypto, height: nat, txs: seq<Transaction>)
    ensures var rs := ReceiptsOf(k, height, txs);
      && TreeRoot(k.hash, TxHashes(rs)) == TxsRootOf(k, txs)
      && TreeRoot(k.hash, ReceiptHashes(k, rs)) == ReceiptsRootOf(k, height, txs)
  {
    var rs := ReceiptsOf(k, height, txs);
    assert TxHashes(rs) == seq(|txs|, i requires 0 <= i < |txs| => k.txHash(txs[i]));
    assert ReceiptHashes(k, rs)
      == seq<Hash32>(|txs|, i requires 0 <= i < |txs| => k.receiptHash(ReceiptOf(k, height, txs[i])));
  }

  // ---------------------------------------------------------------------------------
  // Blocks

  /** The header continues the chain. */
  predicate Continues(k: Crypto, s: LedgerState, h: Header)
    requires s.blocks != []
  {
    && h.height == |s.blocks| && h.chainId == s.genesis.chainId
    && h.parentHash == k.blockHash(s.blocks[|s.blocks| - 1].header)
  }

  /** All transactions execute in turn, and the header has the roots that result. */
  predicate Carried(k: Crypto, s: LedgerState, b: Block) {
    var m, h := AccountsOf(s), b.header;
    && AllExecute(k, s.genesis.chainId, h.height, m, b.transactions)
    && h.stateRoot == k.stateRoot(InTurn(k, s.genesis.chainId, h.height, m, b.transactions))
    && h.txsRoot == TxsRootOf(k, b.transactions)
    && h.receiptsRoot == ReceiptsRootOf(k, h.height, b.transactions)
  }

  /** What becomes of a received block: skipped if the chain has passed its height, refused at once
      if it does not continue the chain, applied if everything about it is as its header says, and
      refused after execution otherwise. */
  lemma ApplyExactly(k: Crypto, s: LedgerState, b: Block)
    requires s.blocks != []
    ensures var (t, r) := Apply(k, s, b);
      && r == (if b.header.height < |s.blocks| then Skipped
               else if !Continues(k, s, b.header) then RefusedEarly
               else if Carried(k, s, b) then Applied(ReceiptsOf(k, b.header.height, b.transactions))
               else RefusedLate)
      && t.blocks == (if r.Applied? then s.blocks + [b] else s.blocks)
      && (r.Skipped? || r.RefusedEarly? ==> t == s)
  {
    ApplyInTurn(k, s.genesis.chainId, b.header.height, AccountsOf(s), b.transactions);
    RootsOfReceipts(k, b.header.height, b.transactions);
  }

  /** The part of a list that satisfies a condition on the hash, in order. */
  function Keep(k: Crypto, txs: seq<Transaction>, stays: Hash32 -> bool): seq<Transaction> {
    if txs == [] then []
    else if stays(k.txHash(txs[0])) then [txs[0]] + Keep(k, txs[1..], stays)
    else Keep(k, txs[1..], stays)
  }

  lemma {:induction false} KeepOneMore(k: Crypto, txs: seq<Transaction>, tx: Transaction, stays: Hash32 -> bool)
    ensures Keep(k, txs + [tx], stays) == Keep(k, txs, stays) + if stays(k.txHash(tx)) then [tx] else []
  {
    if txs != [] {
      KeepOneMore(k, txs[1..], tx, stays);
      assert (txs + [tx])[1..] == txs[1..] + [tx];
    }
  }

  lemma {:induction false} KeepCounts(k: Crypto, txs: seq<Transaction>, stays: Hash32 -> bool, tx: Transaction)
    ensures multiset(Keep(k, txs, stays))[tx] == if stays(k.txHash(tx)) then multiset(txs)[tx] else 0
  {
    if txs != [] {
      KeepCounts(k, txs[1..], stays, tx);
      assert txs == [txs[0]] + txs[1..];
    }
  }

  lemma {:induction false} UnindexedKeeps(k: Crypto, txs: seq<Transaction>, index: map<Hash32, TxEntry>)
    ensures Unindexed(k, txs, index) == Keep(k, txs, x => x !in index)
  {
    if txs != [] {
      var front, tx := txs[..|txs| - 1], txs[|txs| - 1];
      UnindexedKeeps(k, front, index);
      KeepOneMore(k, front, tx, x => x !in index);
      assert front + [tx] == txs;
    }
  }

  /** After an applied block exactly those transactions are pending that were and whose hash is not
      in the new index, in the old order and as often as before. */
  lemma PendingAfterApply(k: Crypto, s: LedgerState, b: Block)
    requires s.blocks != [] && Apply(k, s, b).1.Applied?
    ensures var t := Apply(k, s, b).0;
      && t.mempool == Keep(k, s.mempool, x => x !in t.txIndex)
      && forall tx: Transaction ::
           multiset(t.mempool)[tx] == if k.txHash(tx) in t.txIndex then 0 else multiset(s.mempool)[tx]
  {
    var t := Apply(k, s, b).0;
    UnindexedKeeps(k, s.mempool, t.txIndex);
    forall tx: Transaction
      ensures multiset(t.mempool)[tx] == if k.txHash(tx) in t.txIndex then 0 else multiset(s.mempool)[tx]
    {
      KeepCounts(k, s.mempool, x => x !in t.txIndex, tx);
    }
  }

  // ---------------------------------------------------------------------------------
  // Mining

  /** The transactions that execute in turn, in order. */
  function Picked(k: Crypto, chainId: string, height: nat, m: Accounts, txs: seq<Transaction>): seq<Transaction> {
    if txs == [] then []
    else
      Picked(k, chainId, height, m, txs[..|txs| - 1])
      + if ExecutesAt(k, chainId, height, m, txs, |txs| - 1) then [txs[|txs| - 1]] else []
  }

  lemma {:induction false} MineInTurn(k: Crypto, chainId: string, height: nat, m: Accounts, txs: seq<Transaction>)
    ensures var b := MineAll(k, chainId, height, m, txs);
      && b.accounts == InTurn(k, chainId, height, m, txs) && b.executed == Picked(k, chainId, height, m, txs)
      && b.receipts == ReceiptsOf(k, height, b.executed)
  {
    if txs != [] {
      var front, tx := txs[..|txs| - 1], txs[|txs| - 1];
      MineInTurn(k, chainId, height, m, front);
      OutcomeExactly(k, InTurn(k, chainId, height, m, front), tx, height, chainId);
      ReceiptsOneMore(k, height, Picked(k, chainId, height, m, front), tx);
    }
  }

  /** The mined block: the pending transactions that execute in turn, under a header that continues
      the chain, two seconds later, with the roots that result. The mempool is empty afterwards. */
  lemma MineExactly(k: Crypto, s: LedgerState, p: Address)
    requires s.blocks != []
    ensures var (t, b) := Mine(k, s, p);
      var parent, n := s.blocks[|s.blocks| - 1].header, |s.blocks|;
      && b.transactions == Picked(k, s.genesis.chainId, n, AccountsOf(s), s.mempool) && b.lastCommit == []
      && Continues(k, s, b.header) && b.header.version == 1 && b.header.proposer == p
      && b.header.timestamp == parent.timestamp + 2 && b.header.validatorSetHash == parent.validatorSetHash
      && b.header.stateRoot == k.stateRoot(InTurn(k, s.genesis.chainId, n, AccountsOf(s), s.mempool))
      && b.header.txsRoot == TxsRootOf(k, b.transactions)
      && b.header.receiptsRoot == ReceiptsRootOf(k, n, b.transactions)
      && t.mempool == [] && t.blocks == s.blocks + [b]
  {
    MineInTurn(k, s.genesis.chainId, |s.blocks|, AccountsOf(s), s.mempool);
    RootsOfReceipts(k, |s.blocks|, MinedBatch(k, s).executed);
  }
}
