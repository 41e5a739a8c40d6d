/** Durability of the ledger: in every run the chain is hash-linked, a crash between any two
    writes loses nothing that was recorded, and reopening restores what was in memory. */
module LedgerRuns {
  import opened Basics
  import opened ChainTypes
  import opened Executor
  import opened Ledger

  datatype Op =
    | SubmitOp(tx: Transaction)
    | MineOp(proposer: Address)
    | ApplyOp(block: Block)
    | CommitOp(h: nat, sigs: seq<CommitSignature>)

  function Do(k: Crypto, s: LedgerState, op: Op): (t: LedgerState)
    requires s.blocks != []
    ensures t.blocks != [] && t.genesis == s.genesis
  {
    match op
    case SubmitOp(tx) => Submit(k, s, tx).0
    case MineOp(p) => Mine(k, s, p).0
    case ApplyOp(b) => Apply(k, s, b).0
    case CommitOp(h, sigs) => SetLastCommit(k, s, h, sigs)
  }

  function Run(k: Crypto, g: Genesis, ops: seq<Op>): (t: LedgerState)
    ensures t.blocks != [] && t.genesis == g
  {
    if ops == [] then Init(k, g) else Do(k, Run(k, g, ops[..|ops| - 1]), ops[|ops| - 1])
  }

  /** `init_from_genesis_with_store` on a store that holds leftovers of an earlier attempt. */
  function InitOn(k: Crypto, g: Genesis, journal: seq<Write>): LedgerState {
    var ws := journal + GenesisWrites(g.accounts);
    var first := GenesisBlock(k, g);
    var b := first.(header := first.header.(stateRoot := k.stateRoot(AccountsAfter(map[], ws))));
    LedgerState(g, ws + CommitWrites(k, b), [b], map[k.blockHash(b.header) := 0], map[], [])
  }

  /** `open_or_init` on the store that a journal has produced. */
  function Reopen(k: Crypto, g: Genesis, journal: seq<Write>): (t: LedgerState)
    ensures t.blocks != [] ==> t.genesis == g
  {
    var t := Rebuild(k, g, journal);
    if t.Some? then t.value else InitOn(k, g, journal)
  }

  /** A step in the life of a node: an operation, or a crash after `p` of the writes made so far
      followed by a restart. */
  datatype Step = Act(op: Op) | Crash(p: nat)

  function Live(k: Crypto, g: Genesis, steps: seq<Step>): LedgerState {
    if steps == [] then Init(k, g)
    else
      var s := Live(k, g, steps[..|steps| - 1]);
      match steps[|steps| - 1]
      case Act(op) => if s.blocks != [] then Do(k, s, op) else s
      case Crash(p) => Reopen(k, g, if p <= |s.journal| then s.journal[..p] else s.journal)
  }

  // ---------------------------------------------------------------------------------
  // Writes of a batch

  /** Writes that touch neither the blocks nor the recorded height. */
  predicate Quiet(ws: seq<Write>) {
    forall w <- ws :: w.PutAccount? || w.PutTx?
  }

  lemma TakeQuiet(k: Crypto, chainId: string, height: nat, b: Batch, tx: Transaction)
    requires Quiet(b.writes)
    ensures Quiet(Take(k, chainId, height, b, tx).writes)
  {
    ExecuteWritesAccounts(k, b.accounts, tx, height, chainId);
  }

  lemma {:induction false} BatchesQuiet(k: Crypto, chainId: string, height: nat, m: Accounts, txs: seq<Transaction>)
    ensures Quiet(MineAll(k, chainId, height, m, txs).writes)
    ensures Quiet(ApplyAll(k, chainId, height, m, txs).writes)
  {
    if txs != [] {
      var front, tx := txs[..|txs| - 1], txs[|txs| - 1];
      BatchesQuiet(k, chainId, height, m, front);
      TakeQuiet(k, chainId, height, MineAll(k, chainId, height, m, front), tx);
      TakeQuiet(k, chainId, height, ApplyAll(k, chainId, height, m, front), tx);
    }
  }

  lemma {:induction false} GenesisQuiet(accounts: seq<GenesisAccount>)
    ensures Quiet(GenesisWrites(accounts))
  {
    if accounts != [] { GenesisQuiet(accounts[..|accounts| - 1]); }
  }

  // ---------------------------------------------------------------------------------
  // Chain structure

  /** Heights count up from genesis and every block names the hash of its parent. */
  predicate Linked(k: Crypto, blocks: seq<Block>) {
    && (forall i :: 0 <= i < |blocks| ==> blocks[i].header.height == i)
    && (forall i :: 0 < i < |blocks| ==> blocks[i].header.parentHash == k.blockHash(blocks[i - 1].header))
  }

  /** Equal up to the commit signatures. */
  predicate SameContent(a: Block, b: Block) {
    a.header == b.header && a.transactions == b.transactions
  }

  /** The recorded height and the stored blocks. */
  datatype Tip = Tip(height: Option<nat>, blocks: map<nat, Block>)

  function TipWrite(t: Tip, w: Write): Tip {
    if w.PutBlock? then t.(blocks := t.blocks[w.h := w.block])
    else if w.PutHeight? then t.(height := Some(w.h))
    else t
  }

  function TipAfter(ws: seq<Write>): Tip {
    if ws == [] then Tip(None, map[]) else TipWrite(TipAfter(ws[..|ws| - 1]), ws[|ws| - 1])
  }

  lemma {:induction false} TipIsStored(ws: seq<Write>)
    ensures var st := WriteAll(EMPTY_STORE, ws); TipAfter(ws) == Tip(st.height, st.blocks)
  {
    if ws != [] { TipIsStored(ws[..|ws| - 1]); }
  }

  /** Whatever height is recorded, the blocks up to it are stored and are those of the chain,
      up to commit signatures. */
  predicate Matches(t: Tip, blocks: seq<Block>) {
    t.height.Some? ==>
      && t.height.value < |blocks|
      && forall i :: 0 <= i <= t.height.value ==> i in t.blocks && SameContent(t.blocks[i], blocks[i])
  }

  /** The whole chain is recorded exactly. */
  predicate Full(t: Tip, blocks: seq<Block>) {
    && (blocks == [] ==> t.height.None?)
    && (blocks != [] ==> t.height == Some(|blocks| - 1))
    && forall i :: 0 <= i < |blocks| ==> i in t.blocks && t.blocks[i] == blocks[i]
  }

  /** A crash after any number of the writes leaves a store that matches the chain. */
  predicate CrashSafe(journal: seq<Write>, blocks: seq<Block>) {
    && Matches(TipAfter(journal), blocks)
    && (journal != [] ==> CrashSafe(journal[..|journal| - 1], blocks))
  }

  lemma {:induction false} CrashAt(journal: seq<Write>, blocks: seq<Block>, p: nat)
    requires CrashSafe(journal, blocks) && p <= |journal|
    ensures Matches(TipAfter(journal[..p]), blocks)
    decreases |journal|
  {
    if p < |journal| {
      assert journal[..|journal| - 1][..p] == journal[..p];
      CrashAt(journal[..|journal| - 1], blocks, p);
    } else {
      assert journal[..p] == journal;
    }
  }

  lemma SafeAfterOne(journal: seq<Write>, w: Write, blocks: seq<Block>)
    requires CrashSafe(journal, blocks) && Matches(TipWrite(TipAfter(journal), w), blocks)
    ensures CrashSafe(journal + [w], blocks) && TipAfter(journal + [w]) == TipWrite(TipAfter(journal), w)
  {
    assert (journal + [w])[..|journal|] == journal;
  }

  lemma {:induction false} SafeAfterQuiet(journal: seq<Write>, ws: seq<Write>, blocks: seq<Block>)
    requires CrashSafe(journal, blocks) && Quiet(ws)
    ensures CrashSafe(journal + ws, blocks) && TipAfter(journal + ws) == TipAfter(journal)
  {
    if ws == [] {
      assert journal + ws == journal;
    } else {
      var front, w := ws[..|ws| - 1], ws[|ws| - 1];
      assert w in ws;
      SafeAfterQuiet(journal, front, blocks);
      SafeAfterOne(journal + front, w, blocks);
      assert journal + ws == journal + front + [w];
    }
  }

  /** Matching survives growth of the chain and new commit signatures. */
  lemma {:induction false} SafeForLonger(journal: seq<Write>, blocks: seq<Block>, longer: seq<Block>)
    requires CrashSafe(journal, blocks) && |blocks| <= |longer|
    requires forall i :: 0 <= i < |blocks| ==> SameContent(blocks[i], longer[i])
    ensures CrashSafe(journal, longer)
  {
    if journal != [] { SafeForLonger(journal[..|journal| - 1], blocks, longer); }
  }

  lemma SafeAfterCommit(k: Crypto, journal: seq<Write>, blocks: seq<Block>, b: Block)
    requires CrashSafe(journal, blocks) && Full(TipAfter(journal), blocks) && b.header.height == |blocks|
    ensures CrashSafe(journal + CommitWrites(k, b), blocks + [b])
    ensures Full(TipAfter(journal + CommitWrites(k, b)), blocks + [b])
  {
    var h, longer := |blocks|, blocks + [b];
    var w0, w1, w2 := PutBlock(h, b), PutBlockHash(k.blockHash(b.header), h), PutHeight(h);
    CommitTips(TipAfter(journal), blocks, b);
    SafeForLonger(journal, blocks, longer);
    SafeAfterOne(journal, w0, longer);
    SafeAfterOne(journal + [w0], w1, longer);
    SafeAfterOne(journal + [w0] + [w1], w2, longer);
    assert journal + CommitWrites(k, b) == journal + [w0] + [w1] + [w2];
  }

  /** A block stored above the recorded height does no harm, and recording it completes it. */
  lemma CommitTips(t: Tip, blocks: seq<Block>, b: Block)
    requires Full(t, blocks)
    ensures var t0 := TipWrite(t, PutBlock(|blocks|, b));
      var t1 := TipWrite(t0, PutHeight(|blocks|));
      Matches(t0, blocks + [b]) && Matches(t1, blocks + [b]) && Full(t1, blocks + [b])
  {
  }

  /** The recorded height never goes back. */
  predicate Rising(journal: seq<Write>) {
    journal != [] ==>
      var front, w := journal[..|journal| - 1], journal[|journal| - 1];
      && Rising(front)
      && (w.PutHeight? && TipAfter(front).height.Some? ==> TipAfter(front).height.value <= w.h)
  }

  lemma RisingOne(journal: seq<Write>, w: Write)
    requires Rising(journal)
    requires w.PutHeight? && TipAfter(journal).height.Some? ==> TipAfter(journal).height.value <= w.h
    ensures Rising(journal + [w])
  {
    assert (journal + [w])[..|journal|] == journal;
  }

  lemma {:induction false} RisingMore(journal: seq<Write>, ws: seq<Write>)
    requires Rising(journal) && forall w <- ws :: !w.PutHeight?
    ensures Rising(journal + ws) && TipAfter(journal + ws).height == TipAfter(journal).height
  {
    if ws == [] {
      assert journal + ws == journal;
    } else {
      var front, w := ws[..|ws| - 1], ws[|ws| - 1];
      assert w in ws;
      RisingMore(journal, front);
      RisingOne(journal + front, w);
      TipOneMore(journal + front, w);
      assert journal + ws == journal + front + [w];
    }
  }

  lemma TipOneMore(journal: seq<Write>, w: Write)
    ensures TipAfter(journal + [w]) == TipWrite(TipAfter(journal), w)
  {
    assert (journal + [w])[..|journal|] == journal;
  }

  lemma RisingCommit(k: Crypto, journal: seq<Write>, b: Block)
    requires Rising(journal) && (TipAfter(journal).height.Some? ==> TipAfter(journal).height.value <= b.header.height)
    ensures Rising(journal + CommitWrites(k, b))
  {
    var ws := [PutBlock(b.header.height, b), PutBlockHash(k.blockHash(b.header), b.header.height)];
    RisingMore(journal, ws);
    RisingOne(journal + ws, PutHeight(b.header.height));
    assert journal + CommitWrites(k, b) == journal + ws + [PutHeight(b.header.height)];
  }

  lemma {:induction false} RisingAt(journal: seq<Write>, p: nat)
    requires Rising(journal) && p <= |journal|
    ensures Rising(journal[..p])
    ensures var h := TipAfter(journal[..p]).height;
      h.Some? ==> TipAfter(journal).height.Some? && h.value <= TipAfter(journal).height.value
    decreases |journal|
  {
    if p < |journal| {
      assert journal[..|journal| - 1][..p] == journal[..p];
      RisingAt(journal[..|journal| - 1], p);
    } else {
      assert journal[..p] == journal;
    }
  }

  /** What was safe for a chain is safe for the part of it that a cut has recorded. */
  lemma {:induction false} CutSafe(journal: seq<Write>, blocks: seq<Block>, p: nat, q: nat, part: seq<Block>)
    requires CrashSafe(journal, blocks) && Rising(journal) && q <= p <= |journal| && |part| <= |blocks|
    requires TipAfter(journal[..p]).height == (if part == [] then None else Some(|part| - 1))
    requires forall i :: 0 <= i < |part| ==> SameContent(part[i], blocks[i])
    ensures CrashSafe(journal[..q], part)
    decreases q
  {
    CrashAt(journal, blocks, q);
    RisingAt(journal, p);
    assert journal[..p][..q] == journal[..q];
    RisingAt(journal[..p], q);
    if q > 0 {
      CutSafe(journal, blocks, p, q - 1, part);
      assert journal[..q][..q - 1] == journal[..q - 1];
    }
  }

  lemma SafeAfterSigning(k: Crypto, journal: seq<Write>, blocks: seq<Block>, h: nat, sigs: seq<CommitSignature>)
    requires CrashSafe(journal, blocks) && Full(TipAfter(journal), blocks) && h < |blocks|
    ensures var b := blocks[h].(lastCommit := sigs);
      var after := journal + [PutBlock(h, b), PutBlockHash(k.blockHash(b.header), h)];
      CrashSafe(after, blocks[h := b]) && Full(TipAfter(after), blocks[h := b])
  {
    var b := blocks[h].(lastCommit := sigs);
    var w0, w1 := PutBlock(h, b), PutBlockHash(k.blockHash(b.header), h);
    SafeForLonger(journal, blocks, blocks[h := b]);
    SafeAfterOne(journal, w0, blocks[h := b]);
    SafeAfterOne(journal + [w0], w1, blocks[h := b]);
    assert journal + [w0, w1] == journal + [w0] + [w1];
  }

  // ---------------------------------------------------------------------------------
  // Invariant of all runs

  predicate Durable(k: Crypto, s: LedgerState) {
    && s.blocks != [] && Linked(k, s.blocks)
    && CrashSafe(s.journal, s.blocks) && Rising(s.journal)
    && Full(TipAfter(s.journal), s.blocks)
    && s.blockByHash == HashIndex(k, s.blocks)
    && Agree(k, s.txIndex, IndexAfter(map[], s.journal), ChainTxs(s.blocks))
  }

  /** Two indexes hold the same about the hash `x`. */
  predicate AgreeAt(m: map<Hash32, TxEntry>, n: map<Hash32, TxEntry>, x: Hash32) {
    (x in m <==> x in n) && (x in m ==> m[x] == n[x])
  }

  /** Two indexes hold the same about the given transactions. */
  predicate Agree(k: Crypto, m: map<Hash32, TxEntry>, n: map<Hash32, TxEntry>, txs: seq<Transaction>) {
    forall tx <- txs :: AgreeAt(m, n, k.txHash(tx))
  }

  predicate Indexes(ws: seq<Write>, x: Hash32) {
    exists i :: 0 <= i < |ws| && ws[i].PutTx? && ws[i].hash == x
  }

  /** The same writes keep agreement, and bring it about for what they index. */
  lemma {:induction false} AgreeAfter(m: map<Hash32, TxEntry>, n: map<Hash32, TxEntry>, ws: seq<Write>, x: Hash32)
    requires AgreeAt(m, n, x) || Indexes(ws, x)
    ensures AgreeAt(IndexAfter(m, ws), IndexAfter(n, ws), x)
  {
    if ws != [] {
      var front, w := ws[..|ws| - 1], ws[|ws| - 1];
      if !(w.PutTx? && w.hash == x) {
        if Indexes(ws, x) {
          var i :| 0 <= i < |ws| && ws[i].PutTx? && ws[i].hash == x;
          assert front[i] == ws[i];
        }
        AgreeAfter(m, n, front, x);
      }
    }
  }

  lemma {:induction false} BatchIndexes(k: Crypto, chainId: string, height: nat, m: Accounts, txs: seq<Transaction>)
    ensures var b := MineAll(k, chainId, height, m, txs); forall tx <- b.executed :: Indexes(b.writes, k.txHash(tx))
    ensures var b := ApplyAll(k, chainId, height, m, txs); forall tx <- b.executed :: Indexes(b.writes, k.txHash(tx))
  {
    if txs != [] {
      var front, tx := txs[..|txs| - 1], txs[|txs| - 1];
      BatchIndexes(k, chainId, height, m, front);
      TakeIndexes(k, chainId, height, MineAll(k, chainId, height, m, front), tx);
      TakeIndexes(k, chainId, height, ApplyAll(k, chainId, height, m, front), tx);
    }
  }

  lemma TakeIndexes(k: Crypto, chainId: string, height: nat, b: Batch, tx: Transaction)
    requires forall x <- b.executed :: Indexes(b.writes, k.txHash(x))
    ensures var t := Take(k, chainId, height, b, tx); forall x <- t.executed :: Indexes(t.writes, k.txHash(x))
  {
    var t := Take(k, chainId, height, b, tx);
    var r := Execute(k, b.accounts, tx, height, chainId);
    forall x <- t.executed ensures Indexes(t.writes, k.txHash(x)) {
      if x in b.executed {
        MoreIndexes(b.writes, TxWrites(r, tx, height), k.txHash(x));
      } else {
        assert t.writes[|t.writes| - 1].PutTx? && t.writes[|t.writes| - 1].hash == k.txHash(tx);
      }
    }
  }

  /** A batch that has not failed has executed all of `txs`. */
  predicate Complete(b: Batch, txs: seq<Transaction>) {
    !b.failed ==> b.executed == txs
  }

  lemma TakeComplete(k: Crypto, chainId: string, height: nat, b: Batch, txs: seq<Transaction>, tx: Transaction)
    requires Complete(b, txs)
    ensures Complete(if b.failed then b else Take(k, chainId, height, b, tx), txs + [tx])
  {
  }

  lemma {:induction false} ApplyExecutes(k: Crypto, chainId: string, height: nat, m: Accounts, txs: seq<Transaction>)
    ensures Complete(ApplyAll(k, chainId, height, m, txs), txs)
  {
    if txs != [] {
      var front, tx := txs[..|txs| - 1], txs[|txs| - 1];
      ApplyExecutes(k, chainId, height, m, front);
      TakeComplete(k, chainId, height, ApplyAll(k, chainId, height, m, front), front, tx);
      assert txs == front + [tx];
    }
  }

  lemma MoreIndexes(ws: seq<Write>, vs: seq<Write>, x: Hash32)
    requires Indexes(ws, x)
    ensures Indexes(ws + vs, x)
  {
    var i :| 0 <= i < |ws| && ws[i].PutTx? && ws[i].hash == x;
    assert (ws + vs)[i] == ws[i];
  }

  predicate SameChain(a: seq<Block>, b: seq<Block>) {
    |a| == |b| && forall i :: 0 <= i < |a| ==> SameContent(a[i], b[i])
  }

  lemma {:induction false} SameTxs(a: seq<Block>, b: seq<Block>)
    requires SameChain(a, b)
    ensures ChainTxs(a) == ChainTxs(b)
  {
    if a != [] { SameTxs(a[..|a| - 1], b[..|b| - 1]); }
  }

  lemma MoreTxs(blocks: seq<Block>, b: Block)
    ensures ChainTxs(blocks + [b]) == ChainTxs(blocks) + b.transactions
  {
    assert (blocks + [b])[..|blocks|] == blocks;
  }

  lemma {:induction false} IndexIgnores(m: map<Hash32, TxEntry>, ws: seq<Write>)
    requires forall w <- ws :: !w.PutTx?
    ensures IndexAfter(m, ws) == m
  {
    if ws != [] {
      assert ws[|ws| - 1] in ws;
      IndexIgnores(m, ws[..|ws| - 1]);
    }
  }

  lemma CommitDurable(k: Crypto, s: LedgerState, b: Block, ws: seq<Write>)
    requires Durable(k, s) && Quiet(ws) && b.header.height == |s.blocks|
    requires b.header.parentHash == k.blockHash(s.blocks[|s.blocks| - 1].header)
    requires forall tx <- b.transactions :: Indexes(ws, k.txHash(tx))
    ensures Durable(k, Commit(k, s, b, ws))
  {
    var t := Commit(k, s, b, ws);
    SafeAfterQuiet(s.journal, ws, s.blocks);
    SafeAfterCommit(k, s.journal + ws, s.blocks, b);
    RisingMore(s.journal, ws);
    RisingCommit(k, s.journal + ws, b);
    assert t.blocks[..|s.blocks|] == s.blocks;
    CommitAgrees(k, s, b, ws);
  }

  lemma CommitAgrees(k: Crypto, s: LedgerState, b: Block, ws: seq<Write>)
    requires Agree(k, s.txIndex, IndexAfter(map[], s.journal), ChainTxs(s.blocks))
    requires forall tx <- b.transactions :: Indexes(ws, k.txHash(tx))
    ensures var t := Commit(k, s, b, ws); Agree(k, t.txIndex, IndexAfter(map[], t.journal), ChainTxs(t.blocks))
  {
    var t := Commit(k, s, b, ws);
    CommitIndex(k, s.journal, b, ws);
    MoreTxs(s.blocks, b);
    forall tx <- ChainTxs(t.blocks) ensures AgreeAt(t.txIndex, IndexAfter(map[], t.journal), k.txHash(tx)) {
      AgreeAfter(s.txIndex, IndexAfter(map[], s.journal), ws, k.txHash(tx));
    }
  }

  lemma CommitIndex(k: Crypto, journal: seq<Write>, b: Block, ws: seq<Write>)
    ensures IndexAfter(map[], journal + ws + CommitWrites(k, b)) == IndexAfter(IndexAfter(map[], journal), ws)
  {
    IndexConcat(map[], journal, ws);
    IndexConcat(map[], journal + ws, CommitWrites(k, b));
    IndexIgnores(IndexAfter(map[], journal + ws), CommitWrites(k, b));
  }

  lemma {:induction false} HashIndexSame(k: Crypto, blocks: seq<Block>, others: seq<Block>)
    requires |blocks| == |others| && forall i :: 0 <= i < |blocks| ==> blocks[i].header == others[i].header
    ensures HashIndex(k, blocks) == HashIndex(k, others)
  {
    if blocks != [] { HashIndexSame(k, blocks[..|blocks| - 1], others[..|others| - 1]); }
  }

  lemma SignedDurable(k: Crypto, s: LedgerState, h: nat, sigs: seq<CommitSignature>)
    requires Durable(k, s) && h < |s.blocks|
    ensures Durable(k, SetLastCommit(k, s, h, sigs))
  {
    var t := SetLastCommit(k, s, h, sigs);
    var w0, w1 := PutBlock(h, t.blocks[h]), PutBlockHash(k.blockHash(t.blocks[h].header), h);
    SafeAfterSigning(k, s.journal, s.blocks, h, sigs);
    HashIndexSame(k, s.blocks, t.blocks);
    RisingMore(s.journal, [w0, w1]);
    SignedAgrees(k, s, h, sigs);
  }

  lemma SignedAgrees(k: Crypto, s: LedgerState, h: nat, sigs: seq<CommitSignature>)
    requires h < |s.blocks|
    ensures var t := SetLastCommit(k, s, h, sigs);
      ChainTxs(t.blocks) == ChainTxs(s.blocks) && IndexAfter(map[], t.journal) == IndexAfter(map[], s.journal)
  {
    var t := SetLastCommit(k, s, h, sigs);
    var ws := [PutBlock(h, t.blocks[h]), PutBlockHash(k.blockHash(t.blocks[h].header), h)];
    SameTxs(s.blocks, t.blocks);
    IndexConcat(map[], s.journal, ws);
    IndexIgnores(IndexAfter(map[], s.journal), ws);
  }

  /** Leftovers of a refused block do no harm either. */
  lemma LeftoversDurable(k: Crypto, s: LedgerState, ws: seq<Write>)
    requires Durable(k, s) && Quiet(ws)
    ensures Durable(k, s.(journal := s.journal + ws, txIndex := IndexAfter(s.txIndex, ws)))
  {
    SafeAfterQuiet(s.journal, ws, s.blocks);
    RisingMore(s.journal, ws);
    IndexConcat(map[], s.journal, ws);
    forall tx <- ChainTxs(s.blocks)
      ensures AgreeAt(IndexAfter(s.txIndex, ws), IndexAfter(IndexAfter(map[], s.journal), ws), k.txHash(tx))
    {
      AgreeAfter(s.txIndex, IndexAfter(map[], s.journal), ws, k.txHash(tx));
    }
  }

  lemma ApplyDurable(k: Crypto, s: LedgerState, b: Block)
    requires Durable(k, s)
    ensures Durable(k, Apply(k, s, b).0)
  {
    if b.header.height >= |s.blocks| && FitsTip(k, s, b) {
      var batch := AppliedBatch(k, s, b);
      BatchesQuiet(k, s.genesis.chainId, b.header.height, AccountsOf(s), b.transactions);
      if RootsMatch(k, batch, b.header) {
        BatchIndexes(k, s.genesis.chainId, b.header.height, AccountsOf(s), b.transactions);
        ApplyExecutes(k, s.genesis.chainId, b.header.height, AccountsOf(s), b.transactions);
        CommitDurable(k, s, b, batch.writes);
      } else {
        LeftoversDurable(k, s, batch.writes);
      }
    }
  }

  lemma StepDurable(k: Crypto, s: LedgerState, op: Op)
    requires Durable(k, s)
    ensures Durable(k, Do(k, s, op))
  {
    match op
    case SubmitOp(tx) =>
    case MineOp(p) =>
      BatchesQuiet(k, s.genesis.chainId, |s.blocks|, AccountsOf(s), s.mempool);
      BatchIndexes(k, s.genesis.chainId, |s.blocks|, AccountsOf(s), s.mempool);
      CommitDurable(k, s.(mempool := []), MinedBlock(k, s, p), MinedBatch(k, s).writes);
    case ApplyOp(b) => ApplyDurable(k, s, b);
    case CommitOp(h, sigs) => if h < |s.blocks| { SignedDurable(k, s, h, sigs); }
  }

  lemma FirstBlockSafe(k: Crypto, journal: seq<Write>, ws: seq<Write>, b: Block)
    requires Rising(journal) && TipAfter(journal).height.None? && Quiet(ws) && b.header.height == 0
    ensures var after := journal + ws + CommitWrites(k, b);
      CrashSafe(after, [b]) && Full(TipAfter(after), [b]) && Rising(after)
  {
    UnrecordedSafe(journal);
    SafeAfterQuiet(journal, ws, []);
    RisingMore(journal, ws);
    SafeAfterCommit(k, journal + ws, [], b);
    RisingCommit(k, journal + ws, b);
    assert [] + [b] == [b];
  }

  lemma InitOnDurable(k: Crypto, g: Genesis, journal: seq<Write>)
    requires Rising(journal) && TipAfter(journal).height.None?
    ensures Durable(k, InitOn(k, g, journal))
  {
    var t := InitOn(k, g, journal);
    GenesisQuiet(g.accounts);
    FirstBlockSafe(k, journal, GenesisWrites(g.accounts), t.blocks[0]);
    assert t.blocks == [t.blocks[0]] && t.blocks[..0] == [] && ChainTxs(t.blocks) == [];
  }

  lemma {:induction false} UnrecordedSafe(journal: seq<Write>)
    requires Rising(journal) && TipAfter(journal).height.None?
    ensures CrashSafe(journal, [])
  {
    if journal != [] {
      RisingAt(journal, |journal| - 1);
      UnrecordedSafe(journal[..|journal| - 1]);
    }
  }

  lemma InitDurable(k: Crypto, g: Genesis)
    ensures Durable(k, Init(k, g))
  {
    InitOnDurable(k, g, []);
    assert [] + GenesisWrites(g.accounts) == GenesisWrites(g.accounts);
  }

  /** Every run keeps the ledger durable, refused blocks included. */
  lemma {:induction false} RunDurable(k: Crypto, g: Genesis, ops: seq<Op>)
    ensures Durable(k, Run(k, g, ops))
  {
    if ops == [] {
      InitDurable(k, g);
    } else {
      RunDurable(k, g, ops[..|ops| - 1]);
      StepDurable(k, Run(k, g, ops[..|ops| - 1]), ops[|ops| - 1]);
    }
  }

  // ---------------------------------------------------------------------------------
  // Crash and restart

  lemma {:induction false} StoredPrefix(stored: map<nat, Block>, n: nat, blocks: seq<Block>)
    requires n <= |blocks| && forall i :: 0 <= i < n ==> i in stored && SameContent(stored[i], blocks[i])
    ensures StoredBlocks(stored, n).Some?
    ensures forall i :: 0 <= i < n ==> StoredBlocks(stored, n).value[i] == stored[i]
  {
    if n > 0 { StoredPrefix(stored, n - 1, blocks); }
  }

  lemma RebuildMatches(k: Crypto, g: Genesis, journal: seq<Write>, blocks: seq<Block>)
    requires Matches(TipAfter(journal), blocks) && TipAfter(journal).height.Some?
    ensures Rebuild(k, g, journal).Some?
    ensures var t := Rebuild(k, g, journal).value;
      && |t.blocks| == TipAfter(journal).height.value + 1 && t.mempool == [] && t.journal == journal
      && forall i :: 0 <= i < |t.blocks| ==>
           SameContent(t.blocks[i], blocks[i]) && t.blocks[i] == TipAfter(journal).blocks[i]
  {
    TipIsStored(journal);
    StoredPrefix(TipAfter(journal).blocks, TipAfter(journal).height.value + 1, blocks);
  }

  lemma RebuildFull(k: Crypto, g: Genesis, journal: seq<Write>, blocks: seq<Block>)
    requires blocks != [] && Full(TipAfter(journal), blocks)
    ensures Rebuild(k, g, journal)
      == Some(LedgerState(g, journal, blocks, HashIndex(k, blocks),
                          TxEntries(k, IndexAfter(map[], journal), ChainTxs(blocks)), []))
  {
    RebuildMatches(k, g, journal, blocks);
    assert Rebuild(k, g, journal).value.blocks == blocks;
    WriteParts(EMPTY_STORE, journal);
  }

  lemma LinkedPart(k: Crypto, blocks: seq<Block>, part: seq<Block>)
    requires Linked(k, blocks) && |part| <= |blocks|
    requires forall i :: 0 <= i < |part| ==> SameContent(part[i], blocks[i])
    ensures Linked(k, part)
  {
    forall i | 0 < i < |part| ensures part[i].header.parentHash == k.blockHash(part[i - 1].header) {
      assert SameContent(part[i], blocks[i]) && SameContent(part[i - 1], blocks[i - 1]);
    }
  }

  /** Crash consistency: cut the journal of a durable ledger after any number of writes. Either no
      height is recorded yet, or reopening succeeds and yields a hash-linked initial part of the
      chain that was in memory, up to commit signatures. */
  lemma CrashRecovers(k: Crypto, s: LedgerState, p: nat)
    requires Durable(k, s) && p <= |s.journal|
    ensures var cut := s.journal[..p];
      if TipAfter(cut).height.None? then Rebuild(k, s.genesis, cut).None?
      else
        && Rebuild(k, s.genesis, cut).Some?
        && var t := Rebuild(k, s.genesis, cut).value;
           && Linked(k, t.blocks) && |t.blocks| == TipAfter(cut).height.value + 1 <= |s.blocks| && t.mempool == []
           && forall i :: 0 <= i < |t.blocks| ==> SameContent(t.blocks[i], s.blocks[i])
  {
    var cut := s.journal[..p];
    CrashAt(s.journal, s.blocks, p);
    TipIsStored(cut);
    if TipAfter(cut).height.Some? {
      RebuildMatches(k, s.genesis, cut, s.blocks);
      LinkedPart(k, s.blocks, Rebuild(k, s.genesis, cut).value.blocks);
    }
  }

  lemma ReopenDurable(k: Crypto, s: LedgerState, p: nat)
    requires Durable(k, s) && p <= |s.journal|
    ensures Durable(k, Reopen(k, s.genesis, s.journal[..p]))
  {
    var cut := s.journal[..p];
    CrashRecovers(k, s, p);
    RisingAt(s.journal, p);
    if TipAfter(cut).height.None? {
      InitOnDurable(k, s.genesis, cut);
    } else {
      RebuiltDurable(k, s, p);
    }
  }

  lemma RebuiltDurable(k: Crypto, s: LedgerState, p: nat)
    requires Durable(k, s) && p <= |s.journal| && TipAfter(s.journal[..p]).height.Some?
    requires Rebuild(k, s.genesis, s.journal[..p]).Some?
    ensures Durable(k, Rebuild(k, s.genesis, s.journal[..p]).value)
  {
    var cut := s.journal[..p];
    var t := Rebuild(k, s.genesis, cut).value;
    CrashRecovers(k, s, p);
    CrashAt(s.journal, s.blocks, p);
    RebuildMatches(k, s.genesis, cut, s.blocks);
    RisingAt(s.journal, p);
    CutSafe(s.journal, s.blocks, p, p, t.blocks);
    WriteParts(EMPTY_STORE, cut);
    forall tx <- ChainTxs(t.blocks) ensures AgreeAt(t.txIndex, IndexAfter(map[], cut), k.txHash(tx)) {
      var i :| 0 <= i < |ChainTxs(t.blocks)| && ChainTxs(t.blocks)[i] == tx;
      assert HasHash(k, ChainTxs(t.blocks), k.txHash(tx));
      EntriesOf(k, IndexAfter(map[], cut), ChainTxs(t.blocks), k.txHash(tx));
    }
  }

  /** Every life of a node keeps the ledger durable: operations, refused blocks, crashes after any
      write and restarts, in any order. */
  lemma {:induction false} LiveDurable(k: Crypto, g: Genesis, steps: seq<Step>)
    ensures Durable(k, Live(k, g, steps)) && Live(k, g, steps).genesis == g
  {
    if steps == [] {
      InitDurable(k, g);
    } else {
      var s, step := Live(k, g, steps[..|steps| - 1]), steps[|steps| - 1];
      LiveDurable(k, g, steps[..|steps| - 1]);
      match step
      case Act(op) => StepDurable(k, s, op);
      case Crash(p) =>
        assert s.journal[..|s.journal|] == s.journal;
        ReopenDurable(k, s, if p <= |s.journal| then p else |s.journal|);
    }
  }

  /** Restart: reopening restores the blocks and the hash index exactly, and the entries of the
      transaction index that belong to transactions of the chain. */
  lemma RestartRestores(k: Crypto, s: LedgerState)
    requires Durable(k, s)
    ensures Rebuild(k, s.genesis, s.journal)
      == Some(s.(txIndex := TxEntries(k, s.txIndex, ChainTxs(s.blocks)), mempool := []))
  {
    RebuildFull(k, s.genesis, s.journal, s.blocks);
    SameEntries(k, s.txIndex, IndexAfter(map[], s.journal), ChainTxs(s.blocks));
  }

  lemma {:induction false} SameEntries(k: Crypto, m: map<Hash32, TxEntry>, n: map<Hash32, TxEntry>,
                                       txs: seq<Transaction>)
    requires Agree(k, m, n, txs)
    ensures TxEntries(k, m, txs) == TxEntries(k, n, txs)
  {
    if txs != [] {
      assert txs[|txs| - 1] in txs && forall tx <- txs[..|txs| - 1] :: tx in txs;
      SameEntries(k, m, n, txs[..|txs| - 1]);
    }
  }

  // ---------------------------------------------------------------------------------
  // The transaction index

  predicate HasHash(k: Crypto, txs: seq<Transaction>, x: Hash32) {
    exists i :: 0 <= i < |txs| && k.txHash(txs[i]) == x
  }

  lemma {:induction false} EntriesOf(k: Crypto, index: map<Hash32, TxEntry>, txs: seq<Transaction>, x: Hash32)
    ensures x in TxEntries(k, index, txs) <==> x in index && HasHash(k, txs, x)
    ensures x in TxEntries(k, index, txs) ==> TxEntries(k, index, txs)[x] == index[x]
  {
    if txs != [] {
      var front := txs[..|txs| - 1];
      EntriesOf(k, index, front, x);
      assert HasHash(k, txs, x) <==> HasHash(k, front, x) || k.txHash(txs[|txs| - 1]) == x by {
        if HasHash(k, front, x) {
          var i :| 0 <= i < |front| && k.txHash(front[i]) == x;
          assert k.txHash(txs[i]) == x;
        }
        if i :| 0 <= i < |txs| && k.txHash(txs[i]) == x && i < |front| {
          assert k.txHash(front[i]) == x;
        }
      }
    }
  }

  /** Every indexed hash is that of a transaction in the chain. */
  predicate IndexInChain(k: Crypto, s: LedgerState) {
    forall x <- s.txIndex.Keys :: HasHash(k, ChainTxs(s.blocks), x)
  }

  /** The whole index comes back if and only if it holds no leftovers of refused blocks. */
  lemma RestartIndexExact(k: Crypto, s: LedgerState)
    requires Durable(k, s)
    ensures Rebuild(k, s.genesis, s.journal) == Some(s.(mempool := [])) <==> IndexInChain(k, s)
  {
    RestartRestores(k, s);
    EntriesWhole(k, s.txIndex, ChainTxs(s.blocks));
  }

  lemma EntriesWhole(k: Crypto, index: map<Hash32, TxEntry>, txs: seq<Transaction>)
    ensures TxEntries(k, index, txs) == index <==> forall x <- index.Keys :: HasHash(k, txs, x)
  {
    var m := TxEntries(k, index, txs);
    forall x
      ensures x in m <==> x in index && HasHash(k, txs, x)
      ensures x in m ==> m[x] == index[x]
    {
      EntriesOf(k, index, txs, x);
    }
    if forall x <- index.Keys :: HasHash(k, txs, x) {
      assert m == index;
    }
  }
}
