/** What the ledger holds: genuine transactions only, the entries of its index, the first pending
    transaction of each sender in the next block, the genesis accounts. */
module Contents {
  import opened Basics
  import opened ChainTypes
  import opened Executor
  import opened Ledger
  import opened LedgerRuns
  import opened Replication
  import opened Admission

  // ---------------------------------------------------------------------------------
  // Genuine transactions

  predicate AllGenuine(k: Crypto, chainId: string, txs: seq<Transaction>) {
    forall tx <- txs :: Genuine(k, tx, chainId)
  }

  /** All transactions that are pending or in the chain are genuine. */
  predicate Trustworthy(k: Crypto, s: LedgerState) {
    AllGenuine(k, s.genesis.chainId, s.mempool) && AllGenuine(k, s.genesis.chainId, ChainTxs(s.blocks))
  }

  lemma {:induction false} PickedGenuine(k: Crypto, chainId: string, height: nat, m: Accounts, txs: seq<Transaction>)
    ensures AllGenuine(k, chainId, Picked(k, chainId, height, m, txs))
  {
    if txs != [] {
      var front := txs[..|txs| - 1];
      PickedGenuine(k, chainId, height, m, front);
      assert txs[..|txs| - 1] == front;
      OutcomeExactly(k, InTurn(k, chainId, height, m, front), txs[|txs| - 1], height, chainId);
    }
  }

  lemma AppliedGenuine(k: Crypto, chainId: string, height: nat, m: Accounts, txs: seq<Transaction>)
    requires AllExecute(k, chainId, height, m, txs)
    ensures AllGenuine(k, chainId, txs)
  {
    forall tx <- txs ensures Genuine(k, tx, chainId) {
      var i :| 0 <= i < |txs| && txs[i] == tx;
      assert ExecutesAt(k, chainId, height, m, txs, i);
      OutcomeExactly(k, InTurn(k, chainId, height, m, txs[..i]), tx, height, chainId);
    }
  }

  lemma {:induction false} KeepIsPart(k: Crypto, txs: seq<Transaction>, stays: Hash32 -> bool)
    ensures forall tx <- Keep(k, txs, stays) :: tx in txs
  {
    if txs != [] { KeepIsPart(k, txs[1..], stays); }
  }

  lemma StepTrustworthy(k: Crypto, s: LedgerState, op: Op)
    requires s.blocks != [] && Trustworthy(k, s)
    ensures Trustworthy(k, Do(k, s, op))
  {
    match op
    case SubmitOp(tx) => SubmitExactly(k, s, tx);
    case MineOp(p) =>
      MineExactly(k, s, p);
      MoreTxs(s.blocks, Mine(k, s, p).1);
      PickedGenuine(k, s.genesis.chainId, |s.blocks|, AccountsOf(s), s.mempool);
    case ApplyOp(b) => ApplyTrustworthy(k, s, b);
    case CommitOp(h, sigs) => if h < |s.blocks| { SameTxs(s.blocks, SetLastCommit(k, s, h, sigs).blocks); }
  }

  lemma ApplyTrustworthy(k: Crypto, s: LedgerState, b: Block)
    requires s.blocks != [] && Trustworthy(k, s)
    ensures Trustworthy(k, Apply(k, s, b).0)
  {
    ApplyExactly(k, s, b);
    if Apply(k, s, b).1.Applied? {
      PendingAfterApply(k, s, b);
      KeepIsPart(k, s.mempool, x => x !in Apply(k, s, b).0.txIndex);
      MoreTxs(s.blocks, b);
      AppliedGenuine(k, s.genesis.chainId, b.header.height, AccountsOf(s), b.transactions);
    }
  }

  lemma {:induction false} PartTxs(part: seq<Block>, blocks: seq<Block>)
    requires |part| <= |blocks| && SameChain(part, blocks[..|part|])
    ensures forall tx <- ChainTxs(part) :: tx in ChainTxs(blocks)
    decreases |blocks|
  {
    if |part| == |blocks| {
      assert blocks[..|part|] == blocks;
      SameTxs(part, blocks);
    } else {
      assert blocks[..|blocks| - 1][..|part|] == blocks[..|part|];
      PartTxs(part, blocks[..|blocks| - 1]);
    }
  }

  lemma CrashTrustworthy(k: Crypto, s: LedgerState, p: nat)
    requires Durable(k, s) && Trustworthy(k, s) && p <= |s.journal|
    ensures Trustworthy(k, Reopen(k, s.genesis, s.journal[..p]))
  {
    CrashRecovers(k, s, p);
    var r := Rebuild(k, s.genesis, s.journal[..p]);
    if r.Some? {
      PartTxs(r.value.blocks, s.blocks);
    } else {
      NoTxs(Reopen(k, s.genesis, s.journal[..p]).blocks[0]);
    }
  }

  lemma NoTxs(b: Block)
    requires b.transactions == []
    ensures ChainTxs([b]) == []
  {
    MoreTxs([], b);
    assert [] + [b] == [b];
  }

  /** Nothing forged gets in: in every life of a node, crashes and refused blocks included, every
      pending transaction and every transaction of the chain is signed by its sender's key, is
      meant for this chain and transfers no zero amounts. */
  lemma {:induction false} NothingForged(k: Crypto, g: Genesis, steps: seq<Step>)
    ensures Trustworthy(k, Live(k, g, steps))
  {
    if steps == [] {
      NoTxs(GenesisBlock(k, g));
    } else {
      var s := Live(k, g, steps[..|steps| - 1]);
      NothingForged(k, g, steps[..|steps| - 1]);
      LiveDurable(k, g, steps[..|steps| - 1]);
      match steps[|steps| - 1]
      case Act(op) => StepTrustworthy(k, s, op);
      case Crash(p) =>
        assert s.journal[..|s.journal|] == s.journal;
        CrashTrustworthy(k, s, if p <= |s.journal| then p else |s.journal|);
    }
  }

  // ---------------------------------------------------------------------------------
  // The transaction index

  /** The last of `txs` with hash `x`. */
  function LastWith(k: Crypto, txs: seq<Transaction>, x: Hash32): Option<Transaction> {
    if txs == [] then None
    else if k.txHash(txs[|txs| - 1]) == x then Some(txs[|txs| - 1])
    else LastWith(k, txs[..|txs| - 1], x)
  }

  /** The index `after` is `before` with an entry for each of `txs`: the transaction, its receipt
      and the height. */
  predicate EntryAt(k: Crypto, height: nat, before: map<Hash32, TxEntry>, after: map<Hash32, TxEntry>,
                    txs: seq<Transaction>, x: Hash32) {
    match LastWith(k, txs, x)
    case None => AgreeAt(after, before, x)
    case Some(tx) => x in after && after[x] == TxEntry(tx, ReceiptOf(k, height, tx), height)
  }

  lemma TakeEntry(k: Crypto, chainId: string, height: nat, index: map<Hash32, TxEntry>, b: Batch, tx: Transaction,
                  x: Hash32)
    requires EntryAt(k, height, index, IndexAfter(index, b.writes), b.executed, x)
    ensures var t := Take(k, chainId, height, b, tx);
      EntryAt(k, height, index, IndexAfter(index, t.writes), t.executed, x)
  {
    var r := Execute(k, b.accounts, tx, height, chainId);
    OutcomeExactly(k, b.accounts, tx, height, chainId);
    ExecuteWritesAccounts(k, b.accounts, tx, height, chainId);
    IndexConcat(index, b.writes, TxWrites(r, tx, height));
    OnlyAccounts(IndexAfter(index, b.writes), r.writes);
    if r.outcome.Executed? {
      IndexOneMore(IndexAfter(index, b.writes), r.writes, PutTx(k.txHash(tx), TxEntry(tx, r.outcome.receipt, height)));
      assert (b.executed + [tx])[..|b.executed|] == b.executed;
    }
  }

  lemma {:induction false} BatchEntry(k: Crypto, chainId: string, height: nat, index: map<Hash32, TxEntry>,
                                      m: Accounts, txs: seq<Transaction>, x: Hash32)
    ensures var b := MineAll(k, chainId, height, m, txs);
      EntryAt(k, height, index, IndexAfter(index, b.writes), b.executed, x)
    ensures var b := ApplyAll(k, chainId, height, m, txs);
      EntryAt(k, height, index, IndexAfter(index, b.writes), b.executed, x)
  {
    if txs != [] {
      var front, tx := txs[..|txs| - 1], txs[|txs| - 1];
      BatchEntry(k, chainId, height, index, m, front, x);
      TakeEntry(k, chainId, height, index, MineAll(k, chainId, height, m, front), tx, x);
      TakeEntry(k, chainId, height, index, ApplyAll(k, chainId, height, m, front), tx, x);
    }
  }

  /** A mined or applied block adds exactly its transactions to the index, each with its receipt
      and the block's height; entries under other hashes stay. */
  lemma IndexExactly(k: Crypto, s: LedgerState, t: LedgerState, b: Block, x: Hash32)
    requires s.blocks != []
    requires (exists p :: (t, b) == Mine(k, s, p)) || (t == Apply(k, s, b).0 && Apply(k, s, b).1.Applied?)
    ensures EntryAt(k, |s.blocks|, s.txIndex, t.txIndex, b.transactions, x)
  {
    BatchEntry(k, s.genesis.chainId, |s.blocks|, s.txIndex, AccountsOf(s), s.mempool, x);
    BatchEntry(k, s.genesis.chainId, |s.blocks|, s.txIndex, AccountsOf(s), b.transactions, x);
    ApplyExecutes(k, s.genesis.chainId, |s.blocks|, AccountsOf(s), b.transactions);
  }

  // ---------------------------------------------------------------------------------
  // The stored hash index

  /** What the writes make of the stored index of block hashes. */
  function HashesAfter(m: map<Hash32, nat>, ws: seq<Write>): map<Hash32, nat> {
    if ws == [] then m
    else
      var w, n := ws[|ws| - 1], HashesAfter(m, ws[..|ws| - 1]);
      if w.PutBlockHash? then n[w.hash := w.h] else n
  }

  lemma {:induction false} HashesWritten(ws: seq<Write>)
    ensures WriteAll(EMPTY_STORE, ws).hashIndex == HashesAfter(map[], ws)
  {
    if ws != [] { HashesWritten(ws[..|ws| - 1]); }
  }

  lemma {:induction false} HashesQuiet(m: map<Hash32, nat>, ws: seq<Write>, more: seq<Write>)
    requires Quiet(more)
    ensures HashesAfter(m, ws + more) == HashesAfter(m, ws)
  {
    if more == [] {
      assert ws + more == ws;
    } else {
      assert more[|more| - 1] in more;
      HashesQuiet(m, ws, more[..|more| - 1]);
      assert (ws + more)[..|ws + more| - 1] == ws + more[..|more| - 1];
    }
  }

  lemma HashesOneMore(m: map<Hash32, nat>, ws: seq<Write>, w: Write)
    ensures HashesAfter(m, ws + [w])
      == if w.PutBlockHash? then HashesAfter(m, ws)[w.hash := w.h] else HashesAfter(m, ws)
  {
    assert (ws + [w])[..|ws|] == ws;
  }

  /** An index of block hashes fits a chain: it has the hashes of all blocks and no others, and each
      leads to a block with that hash. */
  ghost predicate FindsAll(k: Crypto, m: map<Hash32, nat>, blocks: seq<Block>) {
    && (forall i :: 0 <= i < |blocks| ==> k.blockHash(blocks[i].header) in m)
    && (forall x <- m.Keys :: m[x] < |blocks| && k.blockHash(blocks[m[x]].header) == x)
  }

  lemma CommitFinds(k: Crypto, journal: seq<Write>, blocks: seq<Block>, ws: seq<Write>, b: Block)
    requires FindsAll(k, HashesAfter(map[], journal), blocks) && Quiet(ws) && b.header.height == |blocks|
    ensures FindsAll(k, HashesAfter(map[], journal + ws + CommitWrites(k, b)), blocks + [b])
  {
    var n, x := b.header.height, k.blockHash(b.header);
    var start := journal + ws;
    HashesQuiet(map[], journal, ws);
    HashesOneMore(map[], start, PutBlock(n, b));
    HashesOneMore(map[], start + [PutBlock(n, b)], PutBlockHash(x, n));
    HashesOneMore(map[], start + [PutBlock(n, b)] + [PutBlockHash(x, n)], PutHeight(n));
    assert start + [PutBlock(n, b)] + [PutBlockHash(x, n)] + [PutHeight(n)] == start + CommitWrites(k, b);
    GrownFinds(k, HashesAfter(map[], journal), blocks, b);
  }

  lemma GrownFinds(k: Crypto, m: map<Hash32, nat>, blocks: seq<Block>, b: Block)
    requires FindsAll(k, m, blocks)
    ensures FindsAll(k, m[k.blockHash(b.header) := |blocks|], blocks + [b])
  {
  }

  lemma SignedFinds(k: Crypto, s: LedgerState, h: nat, sigs: seq<CommitSignature>)
    requires FindsAll(k, HashesAfter(map[], s.journal), s.blocks) && h < |s.blocks|
    ensures var t := SetLastCommit(k, s, h, sigs); FindsAll(k, HashesAfter(map[], t.journal), t.blocks)
  {
    var b := s.blocks[h].(lastCommit := sigs);
    var x := k.blockHash(b.header);
    HashesOneMore(map[], s.journal, PutBlock(h, b));
    HashesOneMore(map[], s.journal + [PutBlock(h, b)], PutBlockHash(x, h));
    assert s.journal + [PutBlock(h, b)] + [PutBlockHash(x, h)] == s.journal + [PutBlock(h, b), PutBlockHash(x, h)];
    var m, t := HashesAfter(map[], s.journal), SetLastCommit(k, s, h, sigs);
    assert HashesAfter(map[], t.journal) == m[x := h];
    assert forall i :: 0 <= i < |s.blocks| ==> t.blocks[i].header == s.blocks[i].header;
  }

  lemma StepFinds(k: Crypto, s: LedgerState, op: Op)
    requires s.blocks != [] && FindsAll(k, HashesAfter(map[], s.journal), s.blocks)
    ensures FindsAll(k, HashesAfter(map[], Do(k, s, op).journal), Do(k, s, op).blocks)
  {
    match op
    case SubmitOp(_) =>
    case MineOp(p) =>
      BatchesQuiet(k, s.genesis.chainId, |s.blocks|, AccountsOf(s), s.mempool);
      CommitFinds(k, s.journal, s.blocks, MinedBatch(k, s).writes, MinedBlock(k, s, p));
    case ApplyOp(b) =>
      BatchesQuiet(k, s.genesis.chainId, b.header.height, AccountsOf(s), b.transactions);
      HashesQuiet(map[], s.journal, AppliedBatch(k, s, b).writes);
      if Apply(k, s, b).1.Applied? { CommitFinds(k, s.journal, s.blocks, AppliedBatch(k, s, b).writes, b); }
    case CommitOp(h, sigs) => if h < |s.blocks| { SignedFinds(k, s, h, sigs); }
  }

  /** After every run the stored hash index leads from the hash of every block of the chain, and from
      no other, to a block with that hash. */
  lemma {:induction false} StoredHashesFind(k: Crypto, g: Genesis, ops: seq<Op>)
    ensures var s := Run(k, g, ops); FindsAll(k, WriteAll(EMPTY_STORE, s.journal).hashIndex, s.blocks)
  {
    HashesWritten(Run(k, g, ops).journal);
    if ops == [] {
      GenesisQuiet(g.accounts);
      assert [] + GenesisWrites(g.accounts) == GenesisWrites(g.accounts);
      assert [] + [GenesisBlock(k, g)] == [GenesisBlock(k, g)];
      CommitFinds(k, [], [], GenesisWrites(g.accounts), GenesisBlock(k, g));
    } else {
      StoredHashesFind(k, g, ops[..|ops| - 1]);
      HashesWritten(Run(k, g, ops[..|ops| - 1]).journal);
      StepFinds(k, Run(k, g, ops[..|ops| - 1]), ops[|ops| - 1]);
    }
  }

  // ---------------------------------------------------------------------------------
  // Batches of blocks

  predicate Refuses(r: ApplyResult) {
    r.RefusedEarly? || r.RefusedLate?
  }

  /** Block `i` of a batch is applied or skipped when its turn comes. */
  predicate Goes(k: Crypto, s: LedgerState, bs: seq<Block>, i: nat)
    requires s.blocks != [] && i < |bs|
  {
    !Refuses(Apply(k, ApplyMany(k, s, bs[..i]).0, bs[i]).1)
  }

  lemma GoesInFront(k: Crypto, s: LedgerState, bs: seq<Block>, i: nat)
    requires s.blocks != [] && i < |bs| - 1
    ensures Goes(k, s, bs, i) <==> Goes(k, s, bs[..|bs| - 1], i)
  {
    assert bs[..|bs| - 1][..i] == bs[..i];
  }

  lemma ManyStep(k: Crypto, s: LedgerState, bs: seq<Block>)
    requires s.blocks != [] && bs != []
    ensures var n, m := ApplyMany(k, s, bs).1, ApplyMany(k, s, bs[..|bs| - 1]).1;
      n == if m.Some? && Goes(k, s, bs, |bs| - 1) then Some(m.value + 1) else None
  {
    var (t, m) := ApplyMany(k, s, bs[..|bs| - 1]);
    if m.Some? {
      var r := Apply(k, t, bs[|bs| - 1]).1;
      assert ApplyMany(k, s, bs).1 == if r.RefusedEarly? || r.RefusedLate? then None else Some(m.value + 1);
    }
  }

  /** A batch of blocks succeeds if and only if each is applied or skipped when its turn comes, and
      then counts them all. */
  lemma {:induction false} ManyExactly(k: Crypto, s: LedgerState, bs: seq<Block>)
    requires s.blocks != []
    ensures var n := ApplyMany(k, s, bs).1;
      (n.Some? ==> n.value == |bs|) && (n.Some? <==> forall i :: 0 <= i < |bs| ==> Goes(k, s, bs, i))
  {
    if bs != [] {
      var front := bs[..|bs| - 1];
      ManyExactly(k, s, front);
      ManyStep(k, s, bs);
      forall i | 0 <= i < |front| ensures Goes(k, s, bs, i) <==> Goes(k, s, front, i) {
        GoesInFront(k, s, bs, i);
      }
    }
  }

  // ---------------------------------------------------------------------------------
  // Mining serves every sender

  lemma {:induction false} CreditsRaise(c: Credits, ms: seq<TxMessage>, a: Address)
    ensures Get(c.accounts, a).balance <= Get(CreditAll(c, ms).accounts, a).balance
  {
    if ms != [] { CreditsRaise(c, ms[..|ms| - 1], a); }
  }

  /** A transaction of somebody else takes nothing from `a`, whatever becomes of it. */
  lemma OthersTakeNothing(k: Crypto, m: Accounts, tx: Transaction, height: nat, chainId: string, a: Address)
    requires tx.sender != a
    ensures var n := Execute(k, m, tx, height, chainId).accounts;
      Get(n, a).nonce == Get(m, a).nonce && Get(m, a).balance <= Get(n, a).balance
  {
    if Refusal(k, m, tx, chainId).None? {
      var d := Debited(m, tx);
      var c := Credits(m[tx.sender := d], [PutAccount(tx.sender, d)], true);
      CreditsKeepNonces(c, tx.messages, a);
      CreditsRaise(c, tx.messages, a);
    }
  }

  lemma {:induction false} InTurnTakesNothing(k: Crypto, chainId: string, height: nat, m: Accounts,
                                              txs: seq<Transaction>, a: Address)
    requires forall tx <- txs :: tx.sender != a
    ensures var n := InTurn(k, chainId, height, m, txs);
      Get(n, a).nonce == Get(m, a).nonce && Get(m, a).balance <= Get(n, a).balance
  {
    if txs != [] {
      assert txs[|txs| - 1] in txs;
      InTurnTakesNothing(k, chainId, height, m, txs[..|txs| - 1], a);
      OthersTakeNothing(k, InTurn(k, chainId, height, m, txs[..|txs| - 1]), txs[|txs| - 1], height, chainId, a);
    }
  }

  lemma {:induction false} PickedHas(k: Crypto, chainId: string, height: nat, m: Accounts, txs: seq<Transaction>,
                                     i: nat)
    requires i < |txs| && ExecutesAt(k, chainId, height, m, txs, i)
    ensures txs[i] in Picked(k, chainId, height, m, txs)
  {
    if i < |txs| - 1 {
      ExecutesAtPrefix(k, chainId, height, m, txs, i);
      PickedHas(k, chainId, height, m, txs[..|txs| - 1], i);
    }
  }

  /** The first pending transaction of a sender is in the next block if it could execute now, with
      all balances together below 2^128: nothing that others have pending can take its place. */
  lemma FirstOfSenderMined(k: Crypto, s: LedgerState, p: Address, i: nat)
    requires s.blocks != [] && i < |s.mempool| && Total(AccountsOf(s)) < TWO_128
    requires forall j :: 0 <= j < i ==> s.mempool[j].sender != s.mempool[i].sender
    requires var tx := s.mempool[i];
      && Genuine(k, tx, s.genesis.chainId) && tx.nonce == Get(AccountsOf(s), tx.sender).nonce
      && Price(tx) <= Get(AccountsOf(s), tx.sender).balance
    ensures s.mempool[i] in Mine(k, s, p).1.transactions
  {
    var tx, chainId, n, m := s.mempool[i], s.genesis.chainId, |s.blocks|, AccountsOf(s);
    var before := InTurn(k, chainId, n, m, s.mempool[..i]);
    InTurnTakesNothing(k, chainId, n, m, s.mempool[..i], tx.sender);
    MineInTurn(k, chainId, n, m, s.mempool[..i]);
    MineTotal(k, chainId, n, m, s.mempool[..i]);
    BalanceBelowTotal(before, tx.sender);
    RefusedWhen(k, before, tx, chainId);
    AllOrNothing(k, before, tx, n, chainId);
    PickedHas(k, chainId, n, m, s.mempool, i);
    MineExactly(k, s, p);
  }

  /** So a transaction that is accepted while its sender has nothing pending is in the next block. */
  lemma SubmittedIsMined(k: Crypto, s: LedgerState, tx: Transaction, p: Address)
    requires s.blocks != [] && Total(AccountsOf(s)) < TWO_128
    requires (forall x <- s.mempool :: x.sender != tx.sender) && Submit(k, s, tx).1.Accepted?
    ensures tx in Mine(k, Submit(k, s, tx).0, p).1.transactions
  {
    SubmitExactly(k, s, tx);
    FirstOfSenderMined(k, Submit(k, s, tx).0, p, |s.mempool|);
  }

  // ---------------------------------------------------------------------------------
  // Genesis, commit signatures and ranges

  /** What genesis grants to `a`, the last of several grants. */
  function Granted(accounts: seq<GenesisAccount>, a: Address): Option<Amount> {
    if accounts == [] then None
    else if accounts[|accounts| - 1].address == a then Some(accounts[|accounts| - 1].balance)
    else Granted(accounts[..|accounts| - 1], a)
  }

  lemma {:induction false} GrantedAccounts(accounts: seq<GenesisAccount>, a: Address)
    ensures var m := AccountsAfter(map[], GenesisWrites(accounts));
      && (a in m <==> Granted(accounts, a).Some?)
      && (a in m ==> m[a] == Account(0, Granted(accounts, a).value, ZERO_HASH, ZERO_HASH))
  {
    if accounts != [] {
      var front, last := accounts[..|accounts| - 1], accounts[|accounts| - 1];
      GrantedAccounts(front, a);
      AccountsOneMore(map[], GenesisWrites(front),
                      PutAccount(last.address, Account(0, last.balance, ZERO_HASH, ZERO_HASH)));
    }
  }

  /** A new ledger: the granted accounts, and one empty block with the fixed header fields. */
  lemma InitExactly(k: Crypto, g: Genesis, a: Address)
    ensures var s := Init(k, g);
      var h := s.blocks[0].header;
      && (a in AccountsOf(s) <==> Granted(g.accounts, a).Some?)
      && (a in AccountsOf(s) ==> AccountsOf(s)[a] == Account(0, Granted(g.accounts, a).value, ZERO_HASH, ZERO_HASH))
      && |s.blocks| == 1 && s.blocks[0].transactions == [] && s.blocks[0].lastCommit == []
      && h.version == 1 && h.chainId == g.chainId && h.height == 0 && h.timestamp == g.time
      && h.parentHash == ZERO_HASH && h.proposer == 0 && h.stateRoot == k.stateRoot(AccountsOf(s))
      && h.txsRoot == ZERO_HASH && h.receiptsRoot == ZERO_HASH && h.validatorSetHash == k.hash(GENESIS_VALIDATORS)
      && s.txIndex == map[] && s.mempool == [] && s.blockByHash == map[k.blockHash(h) := 0]
  {
    var ws := CommitWrites(k, GenesisBlock(k, g));
    GrantedAccounts(g.accounts, a);
    AccountsConcat(map[], GenesisWrites(g.accounts), ws);
    AccountsIgnore(AccountsAfter(map[], GenesisWrites(g.accounts)), ws);
  }

  /** Recording signatures changes those of one block and nothing else in memory. */
  lemma CommitExactly(k: Crypto, s: LedgerState, h: nat, sigs: seq<CommitSignature>)
    ensures var t := SetLastCommit(k, s, h, sigs);
      && |t.blocks| == |s.blocks|
      && (forall i :: 0 <= i < |s.blocks| ==>
            t.blocks[i].header == s.blocks[i].header && t.blocks[i].transactions == s.blocks[i].transactions
            && t.blocks[i].lastCommit == if i == h then sigs else s.blocks[i].lastCommit)
      && t.genesis == s.genesis && t.blockByHash == s.blockByHash && t.txIndex == s.txIndex && t.mempool == s.mempool
      && AccountsOf(t) == AccountsOf(s)
  {
    SignedAccounts(k, s, h, sigs);
  }

  /** A range holds exactly the blocks from `first` to `last` that exist, in order. */
  lemma RangeExactly(blocks: seq<Block>, first: nat, last: nat)
    ensures var r := Range(blocks, first, last);
      && (forall i :: 0 <= i < |r| ==> first + i <= last && first + i < |blocks| && r[i] == blocks[first + i])
      && (forall h :: first <= h <= last && h < |blocks| ==> h - first < |r| && r[h - first] == blocks[h])
  {
  }
}
