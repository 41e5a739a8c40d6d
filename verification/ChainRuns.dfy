/** Runs of the ledger in which no block is refused half way: accounts are a function of the
    chain, so replicas agree, catch up and reopen with the same state. */
module ChainRuns {
  import opened Basics
  import opened ChainTypes
  import opened Executor
  import opened Ledger
  import opened LedgerRuns
  import opened Replication

  /** No received block was refused after its execution had begun. */
  predicate Clean(k: Crypto, g: Genesis, ops: seq<Op>) {
    ops != [] ==>
      var front, op := ops[..|ops| - 1], ops[|ops| - 1];
      Clean(k, g, front) && (op.ApplyOp? ==> !Apply(k, Run(k, g, front), op.block).1.RefusedLate?)
  }

  predicate MineOverflows(k: Crypto, s: LedgerState) {
    Overflows(k, s.genesis.chainId, |s.blocks|, AccountsOf(s), s.mempool)
  }

  /** No transaction overflowed while a block was mined. */
  predicate Smooth(k: Crypto, g: Genesis, ops: seq<Op>) {
    ops != [] ==>
      var front, op := ops[..|ops| - 1], ops[|ops| - 1];
      Smooth(k, g, front) && (op.MineOp? ==> !MineOverflows(k, Run(k, g, front)))
  }

  ghost function GenesisTotal(g: Genesis): nat {
    Total(AccountsAfter(map[], GenesisWrites(g.accounts)))
  }

  lemma GenesisAccounts(k: Crypto, g: Genesis)
    ensures AccountsOf(Init(k, g)) == AccountsAfter(map[], GenesisWrites(g.accounts))
  {
    var ws := CommitWrites(k, GenesisBlock(k, g));
    AccountsConcat(map[], GenesisWrites(g.accounts), ws);
    AccountsIgnore(AccountsAfter(map[], GenesisWrites(g.accounts)), ws);
  }

  // ---------------------------------------------------------------------------------
  // Supply

  /** The fees of everything a step executes, whether or not it ends up in the chain. */
  function BurnedBy(k: Crypto, s: LedgerState, op: Op): nat
    requires s.blocks != []
  {
    match op
    case MineOp(_) => Fees(MinedBatch(k, s).executed)
    case ApplyOp(b) =>
      if b.header.height >= |s.blocks| && FitsTip(k, s, b) then Fees(AppliedBatch(k, s, b).executed) else 0
    case _ => 0
  }

  function Burned(k: Crypto, g: Genesis, ops: seq<Op>): nat {
    if ops == [] then 0
    else Burned(k, g, ops[..|ops| - 1]) + BurnedBy(k, Run(k, g, ops[..|ops| - 1]), ops[|ops| - 1])
  }

  lemma StepSupply(k: Crypto, s: LedgerState, op: Op)
    requires s.blocks != [] && Total(AccountsOf(s)) < TWO_128
    ensures Total(AccountsOf(Do(k, s, op))) + BurnedBy(k, s, op) == Total(AccountsOf(s))
    ensures !MineOverflows(k, s)
  {
    SmallNeverOverflows(k, s.genesis.chainId, |s.blocks|, AccountsOf(s), s.mempool);
    match op
    case SubmitOp(tx) =>
    case MineOp(p) =>
      MineTotal(k, s.genesis.chainId, |s.blocks|, AccountsOf(s), s.mempool);
      MineAccounts(k, s, p);
    case ApplyOp(b) =>
      ApplyTotal(k, s.genesis.chainId, b.header.height, AccountsOf(s), b.transactions);
      ApplyAccounts(k, s, b);
    case CommitOp(h, sigs) => SignedAccounts(k, s, h, sigs);
  }

  /** Supply: if the genesis balances fit into 128 bits, then over every run, refused blocks
      included, the total is the genesis total less the fees of everything executed. */
  lemma {:induction false} RunSupply(k: Crypto, g: Genesis, ops: seq<Op>)
    requires GenesisTotal(g) < TWO_128
    ensures Total(AccountsOf(Run(k, g, ops))) + Burned(k, g, ops) == GenesisTotal(g)
    ensures Smooth(k, g, ops)
  {
    if ops == [] {
      GenesisAccounts(k, g);
    } else {
      RunSupply(k, g, ops[..|ops| - 1]);
      StepSupply(k, Run(k, g, ops[..|ops| - 1]), ops[|ops| - 1]);
    }
  }

  // ---------------------------------------------------------------------------------
  // The chain

  /** The accounts that executing the blocks one after the other on the genesis state gives. */
  function AccountsAt(k: Crypto, g: Genesis, blocks: seq<Block>): Accounts {
    if |blocks| <= 1 then AccountsAfter(map[], GenesisWrites(g.accounts))
    else
      var front := blocks[..|blocks| - 1];
      ApplyAll(k, g.chainId, |front|, AccountsAt(k, g, front), blocks[|blocks| - 1].transactions).accounts
  }

  /** `b` is a correct next block on `blocks`. */
  predicate Extends(k: Crypto, g: Genesis, blocks: seq<Block>, b: Block)
    requires blocks != []
  {
    && b.header.height == |blocks| && b.header.chainId == g.chainId
    && b.header.parentHash == k.blockHash(blocks[|blocks| - 1].header)
    && RootsMatch(k, ApplyAll(k, g.chainId, |blocks|, AccountsAt(k, g, blocks), b.transactions), b.header)
  }

  predicate ValidChain(k: Crypto, g: Genesis, blocks: seq<Block>) {
    && blocks != []
    && if |blocks| == 1 then SameContent(blocks[0], GenesisBlock(k, g))
       else ValidChain(k, g, blocks[..|blocks| - 1]) && Extends(k, g, blocks[..|blocks| - 1], blocks[|blocks| - 1])
  }

  lemma {:induction false} SameAccountsAt(k: Crypto, g: Genesis, a: seq<Block>, b: seq<Block>)
    requires SameChain(a, b)
    ensures AccountsAt(k, g, a) == AccountsAt(k, g, b)
  {
    if |a| > 1 { SameAccountsAt(k, g, a[..|a| - 1], b[..|b| - 1]); }
  }

  lemma {:induction false} SameValidity(k: Crypto, g: Genesis, a: seq<Block>, b: seq<Block>)
    requires SameChain(a, b) && ValidChain(k, g, a)
    ensures ValidChain(k, g, b)
  {
    if |a| > 1 {
      SameValidity(k, g, a[..|a| - 1], b[..|b| - 1]);
      SameAccountsAt(k, g, a[..|a| - 1], b[..|b| - 1]);
    }
  }

  /** Executing a valid chain burns exactly the fees in it. */
  lemma {:induction false} ValidChainTotal(k: Crypto, g: Genesis, blocks: seq<Block>)
    requires ValidChain(k, g, blocks)
    ensures Total(AccountsAt(k, g, blocks)) + Fees(ChainTxs(blocks)) == GenesisTotal(g)
  {
    if |blocks| == 1 {
      assert blocks[..0] == [];
    } else {
      var front, b := blocks[..|blocks| - 1], blocks[|blocks| - 1];
      ValidChainTotal(k, g, front);
      ApplyTotal(k, g.chainId, |front|, AccountsAt(k, g, front), b.transactions);
      ApplyExecutes(k, g.chainId, |front|, AccountsAt(k, g, front), b.transactions);
      FeesConcat(ChainTxs(front), b.transactions);
    }
  }

  // ---------------------------------------------------------------------------------
  // One step of a clean run

  /** The state has not moved, up to pending transactions and commit signatures. */
  predicate Still(s: LedgerState, t: LedgerState) {
    AccountsOf(t) == AccountsOf(s) && t.txIndex == s.txIndex && SameChain(s.blocks, t.blocks)
  }

  /** `t` has one more block, whose transactions were executed on the accounts of `s`. */
  predicate Grown(k: Crypto, s: LedgerState, t: LedgerState, b: Block)
    requires s.blocks != []
  {
    var batch := ApplyAll(k, s.genesis.chainId, |s.blocks|, AccountsOf(s), b.transactions);
    && t.blocks == s.blocks + [b] && AccountsOf(t) == batch.accounts
    && b.header.height == |s.blocks| && b.header.chainId == s.genesis.chainId
    && b.header.parentHash == k.blockHash(s.blocks[|s.blocks| - 1].header)
    && RootsMatch(k, batch, b.header)
  }

  lemma MineGrows(k: Crypto, s: LedgerState, p: Address)
    requires s.blocks != [] && !MineOverflows(k, s)
    ensures Grown(k, s, Mine(k, s, p).0, MinedBlock(k, s, p))
  {
    MineReplays(k, s.genesis.chainId, |s.blocks|, AccountsOf(s), s.mempool);
    MineAccounts(k, s, p);
  }

  lemma ApplyGrows(k: Crypto, s: LedgerState, b: Block)
    requires s.blocks != []
    ensures var (t, r) := Apply(k, s, b);
      if r.Applied? then Grown(k, s, t, b) else r.RefusedLate? || Still(s, t)
  {
    ApplyAccounts(k, s, b);
  }

  lemma StepGrows(k: Crypto, s: LedgerState, op: Op) returns (b: Block)
    requires s.blocks != []
    requires op.ApplyOp? ==> !Apply(k, s, op.block).1.RefusedLate?
    requires op.MineOp? ==> !MineOverflows(k, s)
    ensures Still(s, Do(k, s, op)) || Grown(k, s, Do(k, s, op), b)
  {
    b := s.blocks[0];
    match op
    case SubmitOp(tx) =>
    case MineOp(p) =>
      MineGrows(k, s, p);
      b := MinedBlock(k, s, p);
    case ApplyOp(c) =>
      ApplyGrows(k, s, c);
      b := c;
    case CommitOp(h, sigs) => SignedAccounts(k, s, h, sigs);
  }

  // ---------------------------------------------------------------------------------
  // Accounts are a function of the chain

  /** The chain is valid and the accounts are those it leads to. */
  predicate Faithful(k: Crypto, s: LedgerState) {
    ValidChain(k, s.genesis, s.blocks) && AccountsOf(s) == AccountsAt(k, s.genesis, s.blocks)
  }

  lemma StillFaithful(k: Crypto, s: LedgerState, t: LedgerState)
    requires t.genesis == s.genesis && Faithful(k, s) && Still(s, t)
    ensures Faithful(k, t)
  {
    SameAccountsAt(k, s.genesis, s.blocks, t.blocks);
    SameValidity(k, s.genesis, s.blocks, t.blocks);
  }

  lemma GrownFaithful(k: Crypto, s: LedgerState, t: LedgerState, b: Block)
    requires s.blocks != [] && t.genesis == s.genesis && Faithful(k, s) && Grown(k, s, t, b)
    ensures Faithful(k, t)
  {
    assert t.blocks[..|s.blocks|] == s.blocks;
    assert Extends(k, s.genesis, s.blocks, b);
  }

  lemma {:induction false} SmoothIsFaithful(k: Crypto, g: Genesis, ops: seq<Op>)
    requires Clean(k, g, ops) && Smooth(k, g, ops)
    ensures Faithful(k, Run(k, g, ops))
  {
    if ops == [] {
      GenesisAccounts(k, g);
    } else {
      var s := Run(k, g, ops[..|ops| - 1]);
      SmoothIsFaithful(k, g, ops[..|ops| - 1]);
      var b := StepGrows(k, s, ops[|ops| - 1]);
      var t := Do(k, s, ops[|ops| - 1]);
      if Still(s, t) { StillFaithful(k, s, t); } else { GrownFaithful(k, s, t, b); }
    }
  }

  /** How far the total is below what the fees in the chain account for. */
  ghost function Missing(s: LedgerState): int {
    GenesisTotal(s.genesis) - Total(AccountsOf(s)) - Fees(ChainTxs(s.blocks))
  }

  lemma StepMissing(k: Crypto, s: LedgerState, op: Op)
    requires s.blocks != []
    requires op.ApplyOp? ==> !Apply(k, s, op.block).1.RefusedLate?
    ensures if op.MineOp? && MineOverflows(k, s) then Missing(Do(k, s, op)) > Missing(s)
            else Missing(Do(k, s, op)) == Missing(s)
  {
    if op.MineOp? {
      var batch := MinedBatch(k, s);
      MineTotal(k, s.genesis.chainId, |s.blocks|, AccountsOf(s), s.mempool);
      MineAccounts(k, s, op.proposer);
      MoreTxs(s.blocks, MinedBlock(k, s, op.proposer));
      FeesConcat(ChainTxs(s.blocks), batch.executed);
    } else {
      var b := StepGrows(k, s, op);
      var t := Do(k, s, op);
      if Still(s, t) {
        SameTxs(s.blocks, t.blocks);
      } else {
        MoreTxs(s.blocks, b);
        ApplyTotal(k, s.genesis.chainId, |s.blocks|, AccountsOf(s), b.transactions);
        ApplyExecutes(k, s.genesis.chainId, |s.blocks|, AccountsOf(s), b.transactions);
        FeesConcat(ChainTxs(s.blocks), b.transactions);
      }
    }
  }

  lemma {:induction false} RunMissing(k: Crypto, g: Genesis, ops: seq<Op>)
    requires Clean(k, g, ops)
    ensures Missing(Run(k, g, ops)) >= 0 && (Missing(Run(k, g, ops)) == 0 <==> Smooth(k, g, ops))
  {
    if ops == [] {
      GenesisAccounts(k, g);
      var b := GenesisBlock(k, g);
      assert [b][..0] == [] && ChainTxs([b]) == [];
    } else {
      RunMissing(k, g, ops[..|ops| - 1]);
      StepMissing(k, Run(k, g, ops[..|ops| - 1]), ops[|ops| - 1]);
    }
  }

  /** In every clean run these are equivalent: no mined transaction overflowed; the chain is
      valid and the accounts are what it leads to; the total is the genesis total less the fees
      in the chain. */
  lemma AccountsFollowChain(k: Crypto, g: Genesis, ops: seq<Op>)
    requires Clean(k, g, ops)
    ensures var s := Run(k, g, ops);
      && (Smooth(k, g, ops) <==> Faithful(k, s))
      && (Smooth(k, g, ops) <==> Total(AccountsOf(s)) + Fees(ChainTxs(s.blocks)) == GenesisTotal(g))
  {
    RunMissing(k, g, ops);
    var s := Run(k, g, ops);
    if Smooth(k, g, ops) { SmoothIsFaithful(k, g, ops); }
    if Faithful(k, s) { ValidChainTotal(k, g, s.blocks); }
  }

  /** Two nodes with the same chain, up to commit signatures, have the same accounts, whatever
      each of them did to get there. */
  lemma SameChainSameAccounts(k: Crypto, g: Genesis, ops: seq<Op>, others: seq<Op>)
    requires Clean(k, g, ops) && Clean(k, g, others) && GenesisTotal(g) < TWO_128
    requires SameChain(Run(k, g, ops).blocks, Run(k, g, others).blocks)
    ensures AccountsOf(Run(k, g, ops)) == AccountsOf(Run(k, g, others))
  {
    RunSupply(k, g, ops);
    RunSupply(k, g, others);
    SmoothIsFaithful(k, g, ops);
    SmoothIsFaithful(k, g, others);
    SameAccountsAt(k, g, Run(k, g, ops).blocks, Run(k, g, others).blocks);
  }

  // ---------------------------------------------------------------------------------
  // Catching up

  /** `t` holds an initial part of `chain`, and the accounts for that part. */
  predicate Behind(k: Crypto, t: LedgerState, chain: seq<Block>) {
    && 0 < |t.blocks| <= |chain|
    && SameChain(t.blocks, chain[..|t.blocks|])
    && AccountsOf(t) == AccountsAt(k, t.genesis, chain[..|t.blocks|])
  }

  lemma {:induction false} ValidPrefix(k: Crypto, g: Genesis, chain: seq<Block>, n: nat)
    requires ValidChain(k, g, chain) && 0 < n <= |chain|
    ensures ValidChain(k, g, chain[..n])
    decreases |chain|
  {
    if n == |chain| {
      assert chain[..n] == chain;
    } else {
      ValidPrefix(k, g, chain[..|chain| - 1], n);
      assert chain[..|chain| - 1][..n] == chain[..n];
    }
  }

  lemma {:induction false} HeightOf(k: Crypto, g: Genesis, chain: seq<Block>, i: nat)
    requires ValidChain(k, g, chain) && i < |chain|
    ensures chain[i].header.height == i
    decreases |chain|
  {
    if |chain| > 1 && i < |chain| - 1 { HeightOf(k, g, chain[..|chain| - 1], i); }
  }

  lemma ExtensionApplies(k: Crypto, t: LedgerState, chain: seq<Block>, b: Block)
    requires t.blocks != [] && SameChain(t.blocks, chain) && AccountsOf(t) == AccountsAt(k, t.genesis, chain)
    requires Extends(k, t.genesis, chain, b)
    ensures Apply(k, t, b).1.Applied? && Apply(k, t, b).0.genesis == t.genesis
    ensures Apply(k, t, b).0.blocks == t.blocks + [b]
    ensures AccountsOf(Apply(k, t, b).0)
      == ApplyAll(k, t.genesis.chainId, |chain|, AccountsOf(t), b.transactions).accounts
  {
    assert SameContent(t.blocks[|t.blocks| - 1], chain[|chain| - 1]);
    assert FitsTip(k, t, b);
    ApplyAccounts(k, t, b);
  }

  lemma NextExtends(k: Crypto, g: Genesis, chain: seq<Block>, i: nat)
    requires ValidChain(k, g, chain) && 0 < i < |chain|
    ensures Extends(k, g, chain[..i], chain[i])
    ensures AccountsAt(k, g, chain[..i + 1])
      == ApplyAll(k, g.chainId, i, AccountsAt(k, g, chain[..i]), chain[i].transactions).accounts
  {
    ValidPrefix(k, g, chain, i + 1);
    assert chain[..i + 1][..i] == chain[..i];
  }

  lemma StillSame(a: seq<Block>, chain: seq<Block>)
    requires |a| < |chain| && SameChain(a, chain[..|a|])
    ensures SameChain(a + [chain[|a|]], chain[..|a| + 1])
  {
    assert forall i :: 0 <= i < |a| ==> chain[..|a|][i] == chain[i];
  }

  /** A node accepts the next block of a valid chain it is behind. */
  lemma NextApplies(k: Crypto, t: LedgerState, chain: seq<Block>)
    requires ValidChain(k, t.genesis, chain) && Behind(k, t, chain) && |t.blocks| < |chain|
    ensures var (u, r) := Apply(k, t, chain[|t.blocks|]);
      r.Applied? && u.genesis == t.genesis && |u.blocks| == |t.blocks| + 1 && Behind(k, u, chain)
  {
    var i := |t.blocks|;
    NextExtends(k, t.genesis, chain, i);
    ExtensionApplies(k, t, chain[..i], chain[i]);
    StillSame(t.blocks, chain);
  }

  /** From `t`, the blocks of `chain` below `top` have been applied and led to `u`. */
  predicate Reached(k: Crypto, t: LedgerState, u: LedgerState, chain: seq<Block>, top: nat) {
    && u.genesis == t.genesis && Behind(k, u, chain)
    && |u.blocks| == (if top <= |t.blocks| then |t.blocks| else top)
    && (top <= |t.blocks| ==> u == t)
  }

  lemma ReachNext(k: Crypto, t: LedgerState, u: LedgerState, chain: seq<Block>, i: nat)
    requires ValidChain(k, t.genesis, chain) && i < |chain| && Reached(k, t, u, chain, i)
    ensures var (v, r) := Apply(k, u, chain[i]); (r.Applied? || r.Skipped?) && Reached(k, t, v, chain, i + 1)
  {
    HeightOf(k, t.genesis, chain, i);
    if i == |u.blocks| {
      NextApplies(k, u, chain);
    } else {
      assert Apply(k, u, chain[i]) == (u, Skipped);
    }
  }

  lemma OneMoreApplied(k: Crypto, t: LedgerState, bs: seq<Block>, u: LedgerState, v: LedgerState)
    requires t.blocks != [] && bs != [] && u.blocks != []
    requires ApplyMany(k, t, bs[..|bs| - 1]) == (u, Some(|bs| - 1))
    requires var (w, r) := Apply(k, u, bs[|bs| - 1]); w == v && (r.Applied? || r.Skipped?)
    ensures ApplyMany(k, t, bs) == (v, Some(|bs|))
  {
  }

  lemma {:induction false} CatchUpSteps(k: Crypto, t: LedgerState, chain: seq<Block>, first: nat, bs: seq<Block>)
      returns (v: LedgerState)
    requires ValidChain(k, t.genesis, chain) && Behind(k, t, chain) && first <= |t.blocks|
    requires first + |bs| <= |chain| && forall j :: 0 <= j < |bs| ==> bs[j] == chain[first + j]
    ensures ApplyMany(k, t, bs) == (v, Some(|bs|)) && Reached(k, t, v, chain, first + |bs|)
  {
    if bs == [] {
      v := t;
    } else {
      var u := CatchUpSteps(k, t, chain, first, bs[..|bs| - 1]);
      v := CatchUpOne(k, t, chain, first, bs, u);
    }
  }

  lemma CatchUpOne(k: Crypto, t: LedgerState, chain: seq<Block>, first: nat, bs: seq<Block>, u: LedgerState)
      returns (v: LedgerState)
    requires t.blocks != [] && ValidChain(k, t.genesis, chain)
    requires bs != [] && first + |bs| <= |chain| && bs[|bs| - 1] == chain[first + (|bs| - 1)]
    requires ApplyMany(k, t, bs[..|bs| - 1]) == (u, Some(|bs| - 1)) && Reached(k, t, u, chain, first + (|bs| - 1))
    ensures ApplyMany(k, t, bs) == (v, Some(|bs|)) && Reached(k, t, v, chain, first + |bs|)
  {
    ReachNext(k, t, u, chain, first + (|bs| - 1));
    v := Apply(k, u, bs[|bs| - 1]).0;
    OneMoreApplied(k, t, bs, u, v);
  }

  /** Catch-up: a node asks another one for a range of blocks that begins at or below its own
      next height and reaches the other's tip. Applying them all succeeds, blocks it already has
      change nothing, and it ends with the other's chain and accounts. */
  lemma CatchUp(k: Crypto, s: LedgerState, t: LedgerState, first: nat, last: nat)
    requires s.genesis == t.genesis && Faithful(k, s) && Behind(k, t, s.blocks)
    requires first <= |t.blocks| && |s.blocks| <= last + 1
    ensures var bs := Range(s.blocks, first, last);
      var (u, count) := ApplyMany(k, t, bs);
      && count == Some(|bs|) && SameChain(u.blocks, s.blocks) && AccountsOf(u) == AccountsOf(s)
      && (|t.blocks| == |s.blocks| ==> u == t)
  {
    var u := CatchUpSteps(k, t, s.blocks, first, Range(s.blocks, first, last));
    assert s.blocks[..|s.blocks|] == s.blocks;
  }

  /** The same for any two nodes that started from one genesis. */
  lemma RunsCatchUp(k: Crypto, g: Genesis, ops: seq<Op>, others: seq<Op>, first: nat, last: nat)
    requires Clean(k, g, ops) && Clean(k, g, others) && GenesisTotal(g) < TWO_128
    requires var n := |Run(k, g, others).blocks|;
      && n <= |Run(k, g, ops).blocks| && SameChain(Run(k, g, others).blocks, Run(k, g, ops).blocks[..n])
      && first <= n && |Run(k, g, ops).blocks| <= last + 1
    ensures var s := Run(k, g, ops);
      var (u, count) := ApplyMany(k, Run(k, g, others), Range(s.blocks, first, last));
      count.Some? && SameChain(u.blocks, s.blocks) && AccountsOf(u) == AccountsOf(s)
  {
    var s, t := Run(k, g, ops), Run(k, g, others);
    RunSupply(k, g, ops);
    RunSupply(k, g, others);
    SmoothIsFaithful(k, g, ops);
    SmoothIsFaithful(k, g, others);
    SameAccountsAt(k, g, t.blocks, s.blocks[..|t.blocks|]);
    CatchUp(k, s, t, first, last);
  }

  // ---------------------------------------------------------------------------------
  // Restart with the full index

  lemma {:induction false} TakeIndex(k: Crypto, chainId: string, height: nat, index: map<Hash32, TxEntry>,
                                     b: Batch, tx: Transaction, x: Hash32)
    requires x in IndexAfter(index, b.writes) ==> x in index || HasHash(k, b.executed, x)
    ensures var t := Take(k, chainId, height, b, tx);
      x in IndexAfter(index, t.writes) ==> x in index || HasHash(k, t.executed, x)
  {
    var r := Execute(k, b.accounts, tx, height, chainId);
    var before := IndexAfter(index, b.writes);
    IndexConcat(index, b.writes, TxWrites(r, tx, height));
    ExecuteWritesAccounts(k, b.accounts, tx, height, chainId);
    OnlyAccounts(before, r.writes);
    if r.outcome.Executed? {
      IndexOneMore(before, r.writes, PutTx(r.outcome.receipt.txHash, TxEntry(tx, r.outcome.receipt, height)));
      HashOneMore(k, b.executed, tx, x);
    }
  }

  lemma HashOneMore(k: Crypto, txs: seq<Transaction>, tx: Transaction, x: Hash32)
    ensures HasHash(k, txs, x) || k.txHash(tx) == x ==> HasHash(k, txs + [tx], x)
  {
    if HasHash(k, txs, x) {
      var i :| 0 <= i < |txs| && k.txHash(txs[i]) == x;
      assert k.txHash((txs + [tx])[i]) == x;
    } else if k.txHash(tx) == x {
      assert k.txHash((txs + [tx])[|txs|]) == x;
    }
  }

  lemma HashInEither(k: Crypto, a: seq<Transaction>, b: seq<Transaction>, x: Hash32)
    ensures HasHash(k, a, x) || HasHash(k, b, x) ==> HasHash(k, a + b, x)
  {
    if HasHash(k, a, x) {
      var i :| 0 <= i < |a| && k.txHash(a[i]) == x;
      assert k.txHash((a + b)[i]) == x;
    } else if HasHash(k, b, x) {
      var i :| 0 <= i < |b| && k.txHash(b[i]) == x;
      assert k.txHash((a + b)[|a| + i]) == x;
    }
  }

  lemma {:induction false} BatchIndex(k: Crypto, chainId: string, height: nat, m: Accounts,
                                      txs: seq<Transaction>, index: map<Hash32, TxEntry>, x: Hash32)
    ensures var b := MineAll(k, chainId, height, m, txs);
      x in IndexAfter(index, b.writes) ==> x in index || HasHash(k, b.executed, x)
    ensures var b := ApplyAll(k, chainId, height, m, txs);
      x in IndexAfter(index, b.writes) ==> x in index || HasHash(k, b.executed, x)
  {
    if txs != [] {
      var front, tx := txs[..|txs| - 1], txs[|txs| - 1];
      BatchIndex(k, chainId, height, m, front, index, x);
      TakeIndex(k, chainId, height, index, MineAll(k, chainId, height, m, front), tx, x);
      TakeIndex(k, chainId, height, index, ApplyAll(k, chainId, height, m, front), tx, x);
    }
  }

  lemma CommitIndexInChain(k: Crypto, s: LedgerState, b: Block, batch: Batch)
    requires IndexInChain(k, s) && b.transactions == batch.executed
    requires forall x: Hash32 ::
      x in IndexAfter(s.txIndex, batch.writes) ==> x in s.txIndex || HasHash(k, batch.executed, x)
    ensures IndexInChain(k, Commit(k, s, b, batch.writes))
  {
    var t := Commit(k, s, b, batch.writes);
    MoreTxs(s.blocks, b);
    forall x | x in t.txIndex.Keys ensures HasHash(k, ChainTxs(t.blocks), x) {
      HashInEither(k, ChainTxs(s.blocks), b.transactions, x);
    }
  }

  lemma StepIndexInChain(k: Crypto, s: LedgerState, op: Op)
    requires s.blocks != [] && IndexInChain(k, s)
    requires op.ApplyOp? ==> !Apply(k, s, op.block).1.RefusedLate?
    ensures IndexInChain(k, Do(k, s, op))
  {
    match op
    case SubmitOp(tx) =>
    case MineOp(p) =>
      forall x: Hash32 { BatchIndex(k, s.genesis.chainId, |s.blocks|, AccountsOf(s), s.mempool, s.txIndex, x); }
      CommitIndexInChain(k, s.(mempool := []), MinedBlock(k, s, p), MinedBatch(k, s));
    case ApplyOp(b) =>
      if Apply(k, s, b).1.Applied? {
        forall x: Hash32 {
          BatchIndex(k, s.genesis.chainId, b.header.height, AccountsOf(s), b.transactions, s.txIndex, x);
        }
        ApplyExecutes(k, s.genesis.chainId, b.header.height, AccountsOf(s), b.transactions);
        CommitIndexInChain(k, s, b, AppliedBatch(k, s, b));
      }
    case CommitOp(h, sigs) => SameTxs(s.blocks, SetLastCommit(k, s, h, sigs).blocks);
  }

  lemma {:induction false} CleanIndexInChain(k: Crypto, g: Genesis, ops: seq<Op>)
    requires Clean(k, g, ops)
    ensures IndexInChain(k, Run(k, g, ops))
  {
    if ops != [] {
      CleanIndexInChain(k, g, ops[..|ops| - 1]);
      StepIndexInChain(k, Run(k, g, ops[..|ops| - 1]), ops[|ops| - 1]);
    }
  }

  /** After a clean run reopening yields the state in memory, with an empty mempool. */
  lemma RestartExact(k: Crypto, g: Genesis, ops: seq<Op>)
    requires Clean(k, g, ops)
    ensures var s := Run(k, g, ops); Rebuild(k, g, s.journal) == Some(s.(mempool := []))
  {
    CleanIndexInChain(k, g, ops);
    RunDurable(k, g, ops);
    RestartIndexExact(k, Run(k, g, ops));
  }

  // ---------------------------------------------------------------------------------
  // Nonces

  lemma {:induction false} GenesisNonces(accounts: seq<GenesisAccount>, a: Address)
    ensures Get(AccountsAfter(map[], GenesisWrites(accounts)), a).nonce == 0
  {
    if accounts != [] {
      var front, acc := accounts[..|accounts| - 1], accounts[|accounts| - 1];
      GenesisNonces(front, a);
      AccountsOneMore(map[], GenesisWrites(front),
                      PutAccount(acc.address, Account(0, acc.balance, ZERO_HASH, ZERO_HASH)));
    }
  }

  /** The transactions of a valid chain carry the nonces 0, 1, 2, ... of their senders. */
  lemma {:induction false} ChainNonces(k: Crypto, g: Genesis, blocks: seq<Block>)
    requires ValidChain(k, g, blocks)
    ensures Counted(AccountsAt(k, g, blocks), ChainTxs(blocks))
  {
    if |blocks| == 1 {
      assert blocks[..0] == [] && ChainTxs(blocks) == [];
      forall a: Address ensures Get(AccountsAt(k, g, blocks), a).nonce == 0 { GenesisNonces(g.accounts, a); }
    } else {
      var front, b := blocks[..|blocks| - 1], blocks[|blocks| - 1];
      ChainNonces(k, g, front);
      ApplyCounted(k, g.chainId, |front|, AccountsAt(k, g, front), b.transactions, ChainTxs(front));
    }
  }

  /** Nonce discipline of clean runs: in chain order the transactions of each sender carry
      0, 1, 2, ..., and its account holds the next one. */
  lemma RunNonces(k: Crypto, g: Genesis, ops: seq<Op>)
    requires Clean(k, g, ops) && Smooth(k, g, ops)
    ensures var s := Run(k, g, ops); Counted(AccountsOf(s), ChainTxs(s.blocks))
  {
    SmoothIsFaithful(k, g, ops);
    ChainNonces(k, g, Run(k, g, ops).blocks);
  }

  lemma {:induction false} UnindexedPart(k: Crypto, mempool: seq<Transaction>, index: map<Hash32, TxEntry>)
    ensures forall tx <- Unindexed(k, mempool, index) :: tx in mempool
  {
    if mempool != [] {
      var front := mempool[..|mempool| - 1];
      UnindexedPart(k, front, index);
      assert mempool[|mempool| - 1] in mempool && forall tx <- front :: tx in mempool;
    }
  }

  lemma ApplyNotAhead(k: Crypto, s: LedgerState, b: Block)
    requires s.blocks != [] && NotAhead(AccountsOf(s), s.mempool)
    ensures var t := Apply(k, s, b).0; NotAhead(AccountsOf(t), t.mempool)
  {
    var t := Apply(k, s, b).0;
    ApplyAccounts(k, s, b);
    BatchNonces(k, s.genesis.chainId, b.header.height, AccountsOf(s), b.transactions);
    UnindexedPart(k, s.mempool, t.txIndex);
    assert forall tx <- t.mempool :: tx in s.mempool;
  }

  /** In every run, refused blocks included, no pending transaction is ahead of its sender. */
  lemma {:induction false} PendingNotAhead(k: Crypto, g: Genesis, ops: seq<Op>)
    ensures var s := Run(k, g, ops); NotAhead(AccountsOf(s), s.mempool)
  {
    if ops != [] {
      var s, op := Run(k, g, ops[..|ops| - 1]), ops[|ops| - 1];
      PendingNotAhead(k, g, ops[..|ops| - 1]);
      match op
      case SubmitOp(tx) =>
      case MineOp(p) =>
      case ApplyOp(b) => ApplyNotAhead(k, s, b);
      case CommitOp(h, sigs) => SignedAccounts(k, s, h, sigs);
    }
  }

  /** So a block mined in any run never holds two transactions of one sender, except at the
      last nonce. */
  lemma MinedSingle(k: Crypto, g: Genesis, ops: seq<Op>, p: Address)
    ensures Single(Mine(k, Run(k, g, ops), p).1.transactions)
  {
    var s := Run(k, g, ops);
    PendingNotAhead(k, g, ops);
    OnePerSender(k, g.chainId, |s.blocks|, AccountsOf(s), s.mempool);
  }
}
