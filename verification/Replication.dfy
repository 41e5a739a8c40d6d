/** What batches of transactions do: replaying a mined block, the total supply and the nonces. */
module Replication {
  import opened Basics
  import opened ChainTypes
  import opened Executor
  import opened Ledger
  import opened LedgerRuns

  // ---------------------------------------------------------------------------------
  // Mining and replaying

  /** Some transaction of the list passes the checks but finds no room when its turn comes. */
  predicate Overflows(k: Crypto, chainId: string, height: nat, m: Accounts, txs: seq<Transaction>) {
    txs != [] &&
      var front, tx := txs[..|txs| - 1], txs[|txs| - 1];
      || Overflows(k, chainId, height, m, front)
      || Overflowing(k, MineAll(k, chainId, height, m, front).accounts, tx, chainId)
  }

  function Fees(txs: seq<Transaction>): nat {
    if txs == [] then 0 else Fees(txs[..|txs| - 1]) + txs[|txs| - 1].fee
  }

  lemma FeesOneMore(txs: seq<Transaction>, tx: Transaction)
    ensures Fees(txs + [tx]) == Fees(txs) + tx.fee
  {
    assert (txs + [tx])[..|txs|] == txs;
  }

  lemma {:induction false} FeesConcat(a: seq<Transaction>, b: seq<Transaction>)
    ensures Fees(a + b) == Fees(a) + Fees(b)
  {
    if b == [] {
      assert a + b == a;
    } else {
      FeesConcat(a, b[..|b| - 1]);
      FeesOneMore(a + b[..|b| - 1], b[|b| - 1]);
      assert a + b == a + b[..|b| - 1] + [b[|b| - 1]];
    }
  }

  lemma TakeTotal(k: Crypto, chainId: string, height: nat, b: Batch, tx: Transaction)
    ensures var t := Take(k, chainId, height, b, tx);
      if Overflowing(k, b.accounts, tx, chainId)
      then Total(t.accounts) + Fees(t.executed) < Total(b.accounts) + Fees(b.executed)
      else Total(t.accounts) + Fees(t.executed) == Total(b.accounts) + Fees(b.executed)
  {
    ExecutesExactly(k, b.accounts, tx, height, chainId);
    ExecuteTotal(k, b.accounts, tx, height, chainId);
    FeesOneMore(b.executed, tx);
  }

  /** Mining lowers the total by the fees of what was executed, if nothing overflows, and by
      more otherwise. */
  lemma {:induction false} MineTotal(k: Crypto, chainId: string, height: nat, m: Accounts, txs: seq<Transaction>)
    ensures var b := MineAll(k, chainId, height, m, txs);
      if Overflows(k, chainId, height, m, txs)
      then Total(b.accounts) + Fees(b.executed) < Total(m)
      else Total(b.accounts) + Fees(b.executed) == Total(m)
  {
    if txs != [] {
      MineTotal(k, chainId, height, m, txs[..|txs| - 1]);
      TakeTotal(k, chainId, height, MineAll(k, chainId, height, m, txs[..|txs| - 1]), txs[|txs| - 1]);
    }
  }

  lemma {:induction false} ApplyTotal(k: Crypto, chainId: string, height: nat, m: Accounts, txs: seq<Transaction>)
    ensures var b := ApplyAll(k, chainId, height, m, txs);
      && Total(b.accounts) + Fees(b.executed) <= Total(m)
      && (!b.failed || Total(m) < TWO_128 ==> Total(b.accounts) + Fees(b.executed) == Total(m))
  {
    if txs != [] {
      var b := ApplyAll(k, chainId, height, m, txs[..|txs| - 1]);
      ApplyTotal(k, chainId, height, m, txs[..|txs| - 1]);
      if !b.failed {
        TakeTotal(k, chainId, height, b, txs[|txs| - 1]);
        TakeFails(k, chainId, height, b, txs[|txs| - 1]);
      }
    }
  }

  lemma TakeFails(k: Crypto, chainId: string, height: nat, b: Batch, tx: Transaction)
    ensures var outcome := Execute(k, b.accounts, tx, height, chainId).outcome;
      && (Take(k, chainId, height, b, tx).failed <==> b.failed || outcome.Rejected?)
      && (Overflowing(k, b.accounts, tx, chainId) ==> outcome.Rejected? && TWO_128 <= Total(b.accounts))
  {
    ExecutesExactly(k, b.accounts, tx, height, chainId);
    if Total(b.accounts) < TWO_128 { AllOrNothing(k, b.accounts, tx, height, chainId); }
  }

  lemma {:induction false} SmallNeverOverflows(k: Crypto, chainId: string, height: nat, m: Accounts,
                                               txs: seq<Transaction>)
    requires Total(m) < TWO_128
    ensures !Overflows(k, chainId, height, m, txs)
  {
    if txs != [] {
      var b := MineAll(k, chainId, height, m, txs[..|txs| - 1]);
      SmallNeverOverflows(k, chainId, height, m, txs[..|txs| - 1]);
      MineTotal(k, chainId, height, m, txs[..|txs| - 1]);
      AllOrNothing(k, b.accounts, txs[|txs| - 1], height, chainId);
      ExecutesExactly(k, b.accounts, txs[|txs| - 1], height, chainId);
    }
  }

  lemma {:induction false} MineReplays(k: Crypto, chainId: string, height: nat, m: Accounts, txs: seq<Transaction>)
    requires !Overflows(k, chainId, height, m, txs)
    ensures var b := MineAll(k, chainId, height, m, txs);
      ApplyAll(k, chainId, height, m, b.executed) == b.(failed := false)
  {
    if txs != [] {
      var b, tx := MineAll(k, chainId, height, m, txs[..|txs| - 1]), txs[|txs| - 1];
      MineReplays(k, chainId, height, m, txs[..|txs| - 1]);
      ExecutesExactly(k, b.accounts, tx, height, chainId);
      ExecuteTotal(k, b.accounts, tx, height, chainId);
      assert (b.executed + [tx])[..|b.executed|] == b.executed;
      assert b.writes + [] == b.writes;
    }
  }

  /** Replaying what was mined gives the same accounts, receipts and writes exactly when no
      transaction overflowed: one that overflows leaves a debit behind but not itself. */
  lemma ReplayExactly(k: Crypto, chainId: string, height: nat, m: Accounts, txs: seq<Transaction>)
    ensures var b := MineAll(k, chainId, height, m, txs);
      var a := ApplyAll(k, chainId, height, m, b.executed);
      && (a == b.(failed := false) <==> !Overflows(k, chainId, height, m, txs))
      && (!a.failed && a.accounts == b.accounts <==> !Overflows(k, chainId, height, m, txs))
  {
    var b := MineAll(k, chainId, height, m, txs);
    MineTotal(k, chainId, height, m, txs);
    ApplyTotal(k, chainId, height, m, b.executed);
    ApplyExecutes(k, chainId, height, m, b.executed);
    if !Overflows(k, chainId, height, m, txs) { MineReplays(k, chainId, height, m, txs); }
  }

  // ---------------------------------------------------------------------------------
  // Writes of a batch

  lemma TakeAccounts(k: Crypto, chainId: string, height: nat, m: Accounts, b: Batch, tx: Transaction)
    requires AccountsAfter(m, b.writes) == b.accounts
    ensures var t := Take(k, chainId, height, b, tx); AccountsAfter(m, t.writes) == t.accounts
  {
    var r := Execute(k, b.accounts, tx, height, chainId);
    ExecuteWrites(k, b.accounts, tx, height, chainId);
    AccountsConcat(m, b.writes, TxWrites(r, tx, height));
    if r.outcome.Executed? {
      AccountsOneMore(b.accounts, r.writes, PutTx(r.outcome.receipt.txHash, TxEntry(tx, r.outcome.receipt, height)));
    }
  }

  lemma {:induction false} BatchAccounts(k: Crypto, chainId: string, height: nat, m: Accounts, txs: seq<Transaction>)
    ensures var b := MineAll(k, chainId, height, m, txs); AccountsAfter(m, b.writes) == b.accounts
    ensures var b := ApplyAll(k, chainId, height, m, txs); AccountsAfter(m, b.writes) == b.accounts
  {
    if txs != [] {
      var front, tx := txs[..|txs| - 1], txs[|txs| - 1];
      BatchAccounts(k, chainId, height, m, front);
      TakeAccounts(k, chainId, height, m, MineAll(k, chainId, height, m, front), tx);
      TakeAccounts(k, chainId, height, m, ApplyAll(k, chainId, height, m, front), tx);
    }
  }

  lemma {:induction false} AccountsIgnore(m: Accounts, ws: seq<Write>)
    requires forall w <- ws :: !w.PutAccount?
    ensures AccountsAfter(m, ws) == m
  {
    if ws != [] {
      assert ws[|ws| - 1] in ws;
      AccountsIgnore(m, ws[..|ws| - 1]);
    }
  }

  lemma CommitAccounts(k: Crypto, s: LedgerState, b: Block, ws: seq<Write>)
    ensures AccountsOf(Commit(k, s, b, ws)) == AccountsAfter(AccountsOf(s), ws)
  {
    AccountsConcat(map[], s.journal, ws);
    AccountsConcat(map[], s.journal + ws, CommitWrites(k, b));
    AccountsIgnore(AccountsAfter(AccountsOf(s), ws), CommitWrites(k, b));
  }

  lemma MineAccounts(k: Crypto, s: LedgerState, p: Address)
    requires s.blocks != []
    ensures AccountsOf(Mine(k, s, p).0) == MinedBatch(k, s).accounts
  {
    BatchAccounts(k, s.genesis.chainId, |s.blocks|, AccountsOf(s), s.mempool);
    CommitAccounts(k, s.(mempool := []), MinedBlock(k, s, p), MinedBatch(k, s).writes);
  }

  lemma ApplyAccounts(k: Crypto, s: LedgerState, b: Block)
    requires s.blocks != []
    ensures AccountsOf(Apply(k, s, b).0)
      == if b.header.height >= |s.blocks| && FitsTip(k, s, b) then AppliedBatch(k, s, b).accounts else AccountsOf(s)
  {
    if b.header.height >= |s.blocks| && FitsTip(k, s, b) {
      var ws := AppliedBatch(k, s, b).writes;
      assert AccountsAfter(AccountsOf(s), ws) == AppliedBatch(k, s, b).accounts by {
        BatchAccounts(k, s.genesis.chainId, b.header.height, AccountsOf(s), b.transactions);
      }
      CommitAccounts(k, s, b, ws);
      AccountsConcat(map[], s.journal, ws);
      assert Apply(k, s, b).0.journal == s.journal + ws || Apply(k, s, b).0.journal == Commit(k, s, b, ws).journal;
    }
  }

  lemma SignedAccounts(k: Crypto, s: LedgerState, h: nat, sigs: seq<CommitSignature>)
    ensures AccountsOf(SetLastCommit(k, s, h, sigs)) == AccountsOf(s)
  {
    if h < |s.blocks| {
      var b := s.blocks[h].(lastCommit := sigs);
      var ws := [PutBlock(h, b), PutBlockHash(k.blockHash(b.header), h)];
      AccountsConcat(map[], s.journal, ws);
      AccountsIgnore(AccountsOf(s), ws);
    }
  }

  // ---------------------------------------------------------------------------------
  // Replica determinism

  /** Two ledgers at the same point: same genesis, tip and accounts. Mempools, commit
      signatures and indexes may differ. */
  predicate SamePoint(s: LedgerState, t: LedgerState) {
    && s.genesis == t.genesis && s.blocks != [] && |s.blocks| == |t.blocks|
    && s.blocks[|s.blocks| - 1].header == t.blocks[|t.blocks| - 1].header
    && AccountsOf(s) == AccountsOf(t)
  }

  /** One node mines from any mempool and another one at the same point applies the block: it is
      accepted and leads to the same point, with the same receipts, if and only if no mempool
      transaction overflowed. */
  lemma MinedBlockApplies(k: Crypto, s: LedgerState, t: LedgerState, p: Address)
    requires SamePoint(s, t)
    ensures var (s', b) := Mine(k, s, p);
      var (t', r) := Apply(k, t, b);
      && (!Overflows(k, s.genesis.chainId, |s.blocks|, AccountsOf(s), s.mempool)
          <==> r.Applied? && SamePoint(s', t'))
      && (r.Applied? && SamePoint(s', t') ==> r.receipts == MinedBatch(k, s).receipts && t'.blocks == t.blocks + [b])
  {
    var (s', b) := Mine(k, s, p);
    ReplayExactly(k, s.genesis.chainId, |s.blocks|, AccountsOf(s), s.mempool);
    MineAccounts(k, s, p);
    ApplyAccounts(k, t, b);
    assert FitsTip(k, t, b);
  }

  /** In particular it is accepted whenever all balances together fit into 128 bits. */
  lemma ReplicasAgree(k: Crypto, s: LedgerState, t: LedgerState, p: Address)
    requires SamePoint(s, t) && Total(AccountsOf(s)) < TWO_128
    ensures var (s', b) := Mine(k, s, p);
      var (t', r) := Apply(k, t, b);
      r == Applied(MinedBatch(k, s).receipts) && SamePoint(s', t') && t'.blocks == t.blocks + [b]
  {
    SmallNeverOverflows(k, s.genesis.chainId, |s.blocks|, AccountsOf(s), s.mempool);
    MinedBlockApplies(k, s, t, p);
  }

  lemma TakeWrites(k: Crypto, chainId: string, height: nat, b: Batch, tx: Transaction)
    ensures var t := Take(k, chainId, height, b, tx);
      if Refusal(k, b.accounts, tx, chainId).Some? then t.writes == b.writes && t.failed
      else |t.writes| > |b.writes|
  {
    if Refusal(k, b.accounts, tx, chainId).None? {
      var d := Debited(b.accounts, tx);
      CreditsWrite(Credits(b.accounts[tx.sender := d], [PutAccount(tx.sender, d)], true), tx.messages);
    }
  }

  lemma {:induction false} ApplyWritesNothing(k: Crypto, chainId: string, height: nat, m: Accounts,
                                              txs: seq<Transaction>)
    ensures var b := ApplyAll(k, chainId, height, m, txs);
      && (b.writes == [] <==> txs == [] || Refusal(k, m, txs[0], chainId).Some?)
      && (txs != [] && b.writes == [] ==> b.failed)
  {
    if txs != [] {
      ApplyWritesNothing(k, chainId, height, m, txs[..|txs| - 1]);
      TakeWrites(k, chainId, height, ApplyAll(k, chainId, height, m, txs[..|txs| - 1]), txs[|txs| - 1]);
    }
  }

  /** A block that fits the tip but is refused writes nothing to the store if and only if it is
      empty or its first transaction is refused outright. */
  lemma LateRefusalWritesNothing(k: Crypto, s: LedgerState, b: Block)
    requires s.blocks != [] && Apply(k, s, b).1.RefusedLate?
    ensures Apply(k, s, b).0.journal == s.journal
      <==> b.transactions == [] || Refusal(k, AccountsOf(s), b.transactions[0], s.genesis.chainId).Some?
  {
    ApplyWritesNothing(k, s.genesis.chainId, b.header.height, AccountsOf(s), b.transactions);
  }

  // ---------------------------------------------------------------------------------
  // Nonces

  function Count(txs: seq<Transaction>, a: Address): nat {
    if txs == [] then 0
    else Count(txs[..|txs| - 1], a) + if txs[|txs| - 1].sender == a then 1 else 0
  }

  lemma CountOneMore(txs: seq<Transaction>, tx: Transaction, a: Address)
    ensures Count(txs + [tx], a) == Count(txs, a) + if tx.sender == a then 1 else 0
  {
    assert (txs + [tx])[..|txs|] == txs;
  }

  /** The nonce of an account after `n` transactions: it saturates at the largest `u64`. */
  function NonceAfter(n: nat): nat {
    if n < U64_MAX then n else U64_MAX
  }

  /** Every transaction carries the number of earlier ones of its sender. */
  predicate NoncesInOrder(txs: seq<Transaction>) {
    txs != [] ==>
      var front, tx := txs[..|txs| - 1], txs[|txs| - 1];
      NoncesInOrder(front) && tx.nonce == NonceAfter(Count(front, tx.sender))
  }

  /** `txs` are in nonce order and the accounts are just past them. */
  ghost predicate Counted(m: Accounts, txs: seq<Transaction>) {
    NoncesInOrder(txs) && forall a: Address :: Get(m, a).nonce == NonceAfter(Count(txs, a))
  }

  lemma TakeCounted(k: Crypto, chainId: string, height: nat, b: Batch, tx: Transaction, before: seq<Transaction>)
    requires Counted(b.accounts, before + b.executed)
    requires Execute(k, b.accounts, tx, height, chainId).outcome != Rejected(CreditOverflow)
    ensures var t := Take(k, chainId, height, b, tx); Counted(t.accounts, before + t.executed)
  {
    var r := Execute(k, b.accounts, tx, height, chainId);
    ExecuteTotal(k, b.accounts, tx, height, chainId);
    if r.outcome.Executed? {
      var done := before + b.executed;
      assert before + (b.executed + [tx]) == done + [tx];
      assert (done + [tx])[..|done|] == done;
      forall a: Address ensures Get(r.accounts, a).nonce == NonceAfter(Count(done + [tx], a)) {
        ExecutionEffect(k, b.accounts, tx, height, chainId, a);
        CountOneMore(done, tx, a);
      }
    }
  }

  lemma {:induction false} ApplyCounted(k: Crypto, chainId: string, height: nat, m: Accounts,
                                        txs: seq<Transaction>, before: seq<Transaction>)
    requires Counted(m, before) && !ApplyAll(k, chainId, height, m, txs).failed
    ensures Counted(ApplyAll(k, chainId, height, m, txs).accounts, before + txs)
  {
    ApplyExecutes(k, chainId, height, m, txs);
    if txs == [] {
      assert before + txs == before;
    } else {
      ApplyCounted(k, chainId, height, m, txs[..|txs| - 1], before);
      ApplyExecutes(k, chainId, height, m, txs[..|txs| - 1]);
      TakeCounted(k, chainId, height, ApplyAll(k, chainId, height, m, txs[..|txs| - 1]), txs[|txs| - 1], before);
    }
  }

  lemma {:induction false} NonceAt(txs: seq<Transaction>, i: nat)
    requires NoncesInOrder(txs) && i < |txs|
    ensures txs[i].nonce == NonceAfter(Count(txs[..i], txs[i].sender))
    decreases |txs|
  {
    if i < |txs| - 1 {
      NonceAt(txs[..|txs| - 1], i);
      assert txs[..|txs| - 1][..i] == txs[..i];
    }
  }

  lemma {:induction false} CountGrows(txs: seq<Transaction>, i: nat, j: nat)
    requires i < j <= |txs|
    ensures Count(txs[..i], txs[i].sender) < Count(txs[..j], txs[i].sender)
    decreases j
  {
    assert txs[..j] == txs[..j - 1] + [txs[j - 1]];
    CountOneMore(txs[..j - 1], txs[j - 1], txs[i].sender);
    if i < j - 1 { CountGrows(txs, i, j - 1); }
  }

  /** Of two transactions of one sender the later one carries a larger nonce, so none is there
      twice, exactly as long as the nonce has not reached its last value. */
  lemma NonceOrder(txs: seq<Transaction>, i: nat, j: nat)
    requires NoncesInOrder(txs) && i < j < |txs| && txs[i].sender == txs[j].sender
    ensures txs[i].nonce < txs[j].nonce <==> txs[i].nonce < U64_MAX
  {
    NonceAt(txs, i);
    NonceAt(txs, j);
    CountGrows(txs, i, j);
  }

  // ---------------------------------------------------------------------------------
  // Pending transactions are never ahead

  /** No pending transaction is ahead of its sender's account. */
  predicate NotAhead(m: Accounts, txs: seq<Transaction>) {
    forall tx <- txs :: tx.nonce <= Get(m, tx.sender).nonce
  }

  ghost predicate NoncesGrow(m: Accounts, n: Accounts) {
    forall a: Address :: Get(m, a).nonce <= Get(n, a).nonce
  }

  lemma {:induction false} CreditsKeepNonces(c: Credits, ms: seq<TxMessage>, a: Address)
    ensures Get(CreditAll(c, ms).accounts, a).nonce == Get(c.accounts, a).nonce
  {
    if ms != [] { CreditsKeepNonces(c, ms[..|ms| - 1], a); }
  }

  /** What execution does to nonces, also when it overflows. */
  lemma ExecuteNonces(k: Crypto, m: Accounts, tx: Transaction, height: nat, chainId: string)
    ensures var r := Execute(k, m, tx, height, chainId);
      && NoncesGrow(m, r.accounts)
      && (r.outcome.Executed? ==> Get(m, tx.sender).nonce == tx.nonce)
      && (r.outcome.Executed? ==> Get(r.accounts, tx.sender).nonce == NextNonce(tx.nonce))
  {
    if Refusal(k, m, tx, chainId).None? {
      var d := Debited(m, tx);
      var c := Credits(m[tx.sender := d], [PutAccount(tx.sender, d)], true);
      forall a: Address ensures Get(CreditAll(c, tx.messages).accounts, a).nonce == Get(c.accounts, a).nonce {
        CreditsKeepNonces(c, tx.messages, a);
      }
    }
  }

  lemma {:induction false} BatchNonces(k: Crypto, chainId: string, height: nat, m: Accounts, txs: seq<Transaction>)
    ensures NoncesGrow(m, MineAll(k, chainId, height, m, txs).accounts)
    ensures NoncesGrow(m, ApplyAll(k, chainId, height, m, txs).accounts)
  {
    if txs != [] {
      var front, tx := txs[..|txs| - 1], txs[|txs| - 1];
      BatchNonces(k, chainId, height, m, front);
      ExecuteNonces(k, MineAll(k, chainId, height, m, front).accounts, tx, height, chainId);
      ExecuteNonces(k, ApplyAll(k, chainId, height, m, front).accounts, tx, height, chainId);
    }
  }

  /** Whatever was executed is now behind its sender's account, or was the sender's last. */
  ghost predicate Spent(m: Accounts, txs: seq<Transaction>) {
    forall tx <- txs :: tx.nonce < Get(m, tx.sender).nonce || tx.nonce >= U64_MAX
  }

  predicate AtNonce(m: Accounts, txs: seq<Transaction>) {
    forall tx <- txs :: tx.nonce == Get(m, tx.sender).nonce
  }

  /** Two transactions of one sender occur only at the last nonce. */
  predicate Single(txs: seq<Transaction>) {
    forall i, j :: 0 <= i < j < |txs| && txs[i].sender == txs[j].sender ==> txs[i].nonce >= U64_MAX
  }

  lemma TakeSingle(k: Crypto, chainId: string, height: nat, m: Accounts, b: Batch, tx: Transaction)
    requires NoncesGrow(m, b.accounts) && Spent(b.accounts, b.executed) && AtNonce(m, b.executed) && Single(b.executed)
    requires tx.nonce <= Get(m, tx.sender).nonce
    ensures var t := Take(k, chainId, height, b, tx);
      NoncesGrow(m, t.accounts) && Spent(t.accounts, t.executed) && AtNonce(m, t.executed) && Single(t.executed)
  {
    var r := Execute(k, b.accounts, tx, height, chainId);
    ExecuteNonces(k, b.accounts, tx, height, chainId);
    assert Spent(r.accounts, b.executed);
    if r.outcome.Executed? {
      assert tx.nonce == Get(m, tx.sender).nonce;
      assert forall i :: 0 <= i < |b.executed| ==> b.executed[i] in b.executed;
    }
  }

  /** A mined block holds at most one transaction of each sender, as long as nonces have not
      reached their last value. */
  lemma {:induction false} OnePerSender(k: Crypto, chainId: string, height: nat, m: Accounts, txs: seq<Transaction>)
    requires NotAhead(m, txs)
    ensures var b := MineAll(k, chainId, height, m, txs);
      NoncesGrow(m, b.accounts) && Spent(b.accounts, b.executed) && AtNonce(m, b.executed) && Single(b.executed)
  {
    if txs != [] {
      var front, tx := txs[..|txs| - 1], txs[|txs| - 1];
      assert tx in txs && forall x <- front :: x in txs;
      OnePerSender(k, chainId, height, m, front);
      TakeSingle(k, chainId, height, m, MineAll(k, chainId, height, m, front), tx);
    }
  }
}
