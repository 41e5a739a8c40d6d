/** Three short runs from genesis in which the ledger departs from what it promises: a crash
    between two writes, a refused block that leaves writes behind, and a credit that overflows. */
module Incidents {
  import opened Basics
  import opened ChainTypes
  import opened Executor
  import opened Ledger
  import opened LedgerRuns
  import opened Replication
  import opened ChainRuns
  import opened Crashes

  /** A genesis with two accounts and one transfer between them that is accepted. */
  predicate OneTransfer(k: Crypto, g: Genesis, tx: Transaction) {
    && |g.accounts| == 2 && g.accounts[0].address == tx.sender && g.accounts[1].address != tx.sender
    && g.accounts[0].balance < TWO_128 && g.accounts[1].balance < TWO_128
    && k.authentic(tx) && tx.chainId == g.chainId && tx.nonce == 0
    && |tx.messages| == 1 && tx.messages[0].Transfer? && 0 < tx.messages[0].amount
    && tx.messages[0].to == g.accounts[1].address
    && tx.messages[0].amount + tx.fee <= g.accounts[0].balance
  }

  function Opening(balance: Amount): Account {
    Account(0, balance, ZERO_HASH, ZERO_HASH)
  }

  lemma StartAccounts(k: Crypto, g: Genesis, tx: Transaction)
    requires OneTransfer(k, g, tx)
    ensures AccountsAfter(map[], GenesisWrites(g.accounts)) == AccountsOf(Init(k, g))
      == map[tx.sender := Opening(g.accounts[0].balance), g.accounts[1].address := Opening(g.accounts[1].balance)]
  {
    var a, b := g.accounts[0], g.accounts[1];
    assert g.accounts == [a, b] && g.accounts[..1] == [a] && [a][..0] == [];
    assert GenesisWrites([a]) == [] + [PutAccount(a.address, Opening(a.balance))];
    AccountsOneMore(map[], [], PutAccount(a.address, Opening(a.balance)));
    AccountsOneMore(map[], GenesisWrites([a]), PutAccount(b.address, Opening(b.balance)));
    GenesisAccounts(k, g);
  }

  lemma Accepts(k: Crypto, g: Genesis, tx: Transaction)
    requires OneTransfer(k, g, tx)
    ensures Cost(tx.messages) == Some(tx.messages[0].amount)
    ensures Refusal(k, AccountsOf(Init(k, g)), tx, g.chainId).None?
  {
    StartAccounts(k, g, tx);
    var ms := tx.messages;
    assert ms[..|ms| - 1] == [];
    assert Cost(ms[..|ms| - 1]) == Some(0);
  }

  /** The submitted transfer waits in the mempool. */
  lemma Submitted(k: Crypto, g: Genesis, tx: Transaction)
    requires OneTransfer(k, g, tx)
    ensures Run(k, g, [SubmitOp(tx)]) == Init(k, g).(mempool := [tx])
  {
    Accepts(k, g, tx);
    assert [SubmitOp(tx)][..0] == [];
    assert Run(k, g, []) == Init(k, g);
    assert [] + [tx] == [tx];
  }

  /** What the transfer does: the debit, and then the credit if it fits. */
  lemma Effect(k: Crypto, g: Genesis, tx: Transaction, height: nat)
    requires OneTransfer(k, g, tx)
    ensures Debited.requires(AccountsOf(Init(k, g)), tx)
    ensures var m := AccountsOf(Init(k, g));
      var r := Execute(k, m, tx, height, g.chainId);
      var d := PutAccount(tx.sender, Debited(m, tx));
      && r.writes != [] && r.writes[0] == d
      && (r.outcome.Executed? <==> g.accounts[1].balance + tx.messages[0].amount < TWO_128)
      && (r.outcome.Rejected? ==> r.writes == [d] && r.accounts == m[tx.sender := Debited(m, tx)])
  {
    var m := AccountsOf(Init(k, g));
    StartAccounts(k, g, tx);
    Accepts(k, g, tx);
    var d := Debited(m, tx);
    var c := Credits(m[tx.sender := d], [PutAccount(tx.sender, d)], true);
    assert tx.messages[..0] == [];
    assert CreditAll(c, tx.messages[..0]) == c;
    assert CreditAll(c, tx.messages) == Credit(c, tx.messages[0]);
  }

  lemma OneTake(k: Crypto, g: Genesis, tx: Transaction, height: nat)
    ensures var m := AccountsOf(Init(k, g));
      var t := Take(k, g.chainId, height, StartBatch(m), tx);
      MineAll(k, g.chainId, height, m, [tx]) == t && ApplyAll(k, g.chainId, height, m, [tx]) == t
  {
    assert [tx][..0] == [];
    assert MineAll(k, g.chainId, height, AccountsOf(Init(k, g)), [tx][..0]) == StartBatch(AccountsOf(Init(k, g)));
    assert ApplyAll(k, g.chainId, height, AccountsOf(Init(k, g)), [tx][..0]) == StartBatch(AccountsOf(Init(k, g)));
  }

  // ---------------------------------------------------------------------------------
  // A crash while a block is mined

  /** A transfer is submitted and mined, and the process dies right after the sender has been
      debited. The ledger that comes back has only the genesis block, which holds no transaction,
      but the sender's balance and nonce are those after the transfer. */
  lemma CrashLosesTransfer(k: Crypto, g: Genesis, tx: Transaction, p: Address)
    requires OneTransfer(k, g, tx)
    ensures var ops := [SubmitOp(tx), MineOp(p)];
      var cut := |Init(k, g).journal| + 1;
      && cut <= |Run(k, g, ops).journal| && Rebuild(k, g, Cut(k, g, ops, cut)).Some?
      && var t := Rebuild(k, g, Cut(k, g, ops, cut)).value;
        && t.blocks == [GenesisBlock(k, g)]
        && Get(AccountsOf(t), tx.sender).balance == g.accounts[0].balance - tx.messages[0].amount - tx.fee
        && Get(AccountsOf(t), tx.sender).nonce == 1
        && Get(AccountsOf(t), tx.messages[0].to).balance == g.accounts[1].balance
        && !Sane(k, t)
  {
    var s := Init(k, g);
    MinedStart(k, g, tx, p);
    var d := PutAccount(tx.sender, Debited(AccountsOf(s), tx));
    Accepts(k, g, tx);
    StartAccounts(k, g, tx);
    CutReopens(k, g, d);
    AccountsOneMore(map[], s.journal, d);
  }

  /** The journal of the run goes on with the debit. */
  lemma MinedStart(k: Crypto, g: Genesis, tx: Transaction, p: Address)
    requires OneTransfer(k, g, tx)
    ensures Debited.requires(AccountsOf(Init(k, g)), tx)
    ensures var s, ops := Init(k, g), [SubmitOp(tx), MineOp(p)];
      && |s.journal| + 1 <= |Run(k, g, ops).journal|
      && Cut(k, g, ops, |s.journal| + 1) == s.journal + [PutAccount(tx.sender, Debited(AccountsOf(s), tx))]
  {
    var s, ops := Init(k, g), [SubmitOp(tx), MineOp(p)];
    Submitted(k, g, tx);
    Effect(k, g, tx, 1);
    assert ops[..1] == [SubmitOp(tx)];
    OneTake(k, g, tx, 1);
    var t := Run(k, g, ops[..1]);
    var ws := MinedBatch(k, t).writes;
    assert AccountsOf(t) == AccountsOf(s);
    assert ws[0] == PutAccount(tx.sender, Debited(AccountsOf(s), tx));
    assert Run(k, g, ops).journal == s.journal + ws + CommitWrites(k, MinedBlock(k, t, p));
  }

  lemma CutReopens(k: Crypto, g: Genesis, w: Write)
    requires w.PutAccount?
    ensures var r := Rebuild(k, g, Init(k, g).journal + [w]);
      r.Some? && r.value.blocks == [GenesisBlock(k, g)] && r.value.journal == Init(k, g).journal + [w]
      && r.value.genesis == g
  {
    var s := Init(k, g);
    RunDurable(k, g, []);
    assert Run(k, g, []) == s;
    RestartRestores(k, s);
    WriteOneMore(EMPTY_STORE, s.journal, w);
  }

  // ---------------------------------------------------------------------------------
  // A refused block

  /** A block with the transfer and a wrong state root arrives. It is refused and the chain stays,
      but the transfer has been carried out: the accounts are no longer those of the chain, and
      the transaction is indexed, so that submitting it is refused from now on. */
  lemma RefusedBlockStays(k: Crypto, g: Genesis, tx: Transaction, b: Block)
    requires OneTransfer(k, g, tx) && g.accounts[1].balance + tx.messages[0].amount < TWO_128
    requires b.transactions == [tx] && FitsTip(k, Init(k, g), b)
    requires b.header.stateRoot != k.stateRoot(AppliedBatch(k, Init(k, g), b).accounts)
    ensures var t := Run(k, g, [ApplyOp(b)]);
      && Apply(k, Init(k, g), b).1.RefusedLate? && t.blocks == [GenesisBlock(k, g)]
      && Get(AccountsOf(t), tx.sender).nonce == 1 && !Sane(k, t)
      && Submit(k, t, tx).1 == Refused(AlreadyIncluded)
  {
    var s, batch := Init(k, g), AppliedBatch(k, Init(k, g), b);
    assert [ApplyOp(b)][..0] == [] && Run(k, g, []) == s;
    var t := Run(k, g, [ApplyOp(b)]);
    assert t == Apply(k, s, b).0 && t.journal == s.journal + batch.writes;
    OneTake(k, g, tx, 1);
    Effect(k, g, tx, 1);
    StartAccounts(k, g, tx);
    ExecuteNonces(k, AccountsOf(s), tx, 1, g.chainId);
    BatchAccounts(k, g.chainId, 1, AccountsOf(s), [tx]);
    AccountsConcat(map[], s.journal, batch.writes);
    var r := Execute(k, AccountsOf(s), tx, 1, g.chainId);
    IndexOneMore(map[], r.writes, PutTx(k.txHash(tx), TxEntry(tx, r.outcome.receipt, 1)));
    assert batch.writes == r.writes + [PutTx(k.txHash(tx), TxEntry(tx, r.outcome.receipt, 1))];
  }

  // ---------------------------------------------------------------------------------
  // An overflow while a block is mined

  /** The recipient's account is too full for the transfer. The mined block is empty, but the
      sender has paid; a second node that applies the block keeps the sender's balance, and
      refuses the block unless both states have the same root. */
  lemma OverflowSplitsReplicas(k: Crypto, g: Genesis, tx: Transaction, p: Address)
    requires OneTransfer(k, g, tx) && TWO_128 <= g.accounts[1].balance + tx.messages[0].amount
    ensures var s := Run(k, g, [SubmitOp(tx)]);
      var (t, b) := Mine(k, s, p);
      var (u, answer) := Apply(k, Init(k, g), b);
      && MineOverflows(k, s) && b.transactions == []
      && Get(AccountsOf(t), tx.sender).balance == g.accounts[0].balance - tx.messages[0].amount - tx.fee
      && Get(AccountsOf(u), tx.sender).balance == g.accounts[0].balance
      && (answer.RefusedLate? <==> k.stateRoot(AccountsOf(t)) != k.stateRoot(AccountsOf(u)))
      && (answer.Applied? <==> k.stateRoot(AccountsOf(t)) == k.stateRoot(AccountsOf(u)))
  {
    var s := Run(k, g, [SubmitOp(tx)]);
    Submitted(k, g, tx);
    Accepts(k, g, tx);
    StartAccounts(k, g, tx);
    OneTake(k, g, tx, 1);
    Effect(k, g, tx, 1);
    ExecutesExactly(k, AccountsOf(s), tx, 1, g.chainId);
    assert s.mempool[..0] == [];
    assert MineAll(k, g.chainId, 1, AccountsOf(s), s.mempool[..0]) == StartBatch(AccountsOf(s));
    MineAccounts(k, s, p);
    ApplyAccounts(k, Init(k, g), Mine(k, s, p).1);
  }
}
