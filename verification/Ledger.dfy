/** The chain ledger: genesis, mempool, mining, applying received blocks, commit signatures,
    and reopening from the store. */
module Ledger {
  import opened Basics
  import opened ChainTypes
  import opened Executor
  import opened Merkle

  datatype GenesisAccount = GenesisAccount(address: Address, balance: Amount)

  datatype Genesis = Genesis(chainId: string, time: nat, accounts: seq<GenesisAccount>)

  /** The ledger in memory, and the journal of all writes to its store. */
  datatype LedgerState = LedgerState(
    genesis: Genesis, journal: seq<Write>, blocks: seq<Block>,
    blockByHash: map<Hash32, nat>, txIndex: map<Hash32, TxEntry>, mempool: seq<Transaction>)

  function AccountsOf(s: LedgerState): Accounts {
    AccountsAfter(map[], s.journal)
  }

  // ---------------------------------------------------------------------------------
  // Genesis

  function GenesisWrites(accounts: seq<GenesisAccount>): seq<Write> {
    if accounts == [] then []
    else
      var acc := accounts[|accounts| - 1];
      GenesisWrites(accounts[..|accounts| - 1])
      + [PutAccount(acc.address, Account(0, acc.balance, ZERO_HASH, ZERO_HASH))]
  }

  const GENESIS_VALIDATORS: Bytes :=
    [103, 101, 110, 101, 115, 105, 115, 45, 118, 97, 108, 105, 100, 97, 116, 111, 114, 115]

  function GenesisBlock(k: Crypto, g: Genesis): Block {
    Block(Header(1, g.chainId, 0, g.time, ZERO_HASH, 0,
                 k.stateRoot(AccountsAfter(map[], GenesisWrites(g.accounts))),
                 ZERO_HASH, ZERO_HASH, k.hash(GENESIS_VALIDATORS)), [], [])
  }

  /** The writes that make a block the recorded tip. */
  function CommitWrites(k: Crypto, b: Block): seq<Write> {
    [PutBlock(b.header.height, b), PutBlockHash(k.blockHash(b.header), b.header.height),
     PutHeight(b.header.height)]
  }

  /** `init_from_genesis_with_store` on an empty store. */
  function Init(k: Crypto, g: Genesis): LedgerState {
    var b := GenesisBlock(k, g);
    LedgerState(g, GenesisWrites(g.accounts) + CommitWrites(k, b), [b],
                map[k.blockHash(b.header) := 0], map[], [])
  }

  // ---------------------------------------------------------------------------------
  // Executing lists of transactions

  datatype Batch = Batch(
    accounts: Accounts, executed: seq<Transaction>, receipts: seq<Receipt>, writes: seq<Write>, failed: bool)

  function StartBatch(m: Accounts): Batch {
    Batch(m, [], [], [], false)
  }

  /** The writes for one transaction of a block: its accounts, and its index entry if it
      was executed. */
  function TxWrites(r: ExecResult, tx: Transaction, height: nat): seq<Write> {
    if r.outcome.Executed?
    then r.writes + [PutTx(r.outcome.receipt.txHash, TxEntry(tx, r.outcome.receipt, height))]
    else r.writes
  }

  function Take(k: Crypto, chainId: string, height: nat, b: Batch, tx: Transaction): Batch {
    var r := Execute(k, b.accounts, tx, height, chainId);
    var ws := b.writes + TxWrites(r, tx, height);
    if r.outcome.Executed?
    then Batch(r.accounts, b.executed + [tx], b.receipts + [r.outcome.receipt], ws, b.failed)
    else b.(accounts := r.accounts, writes := ws, failed := true)
  }

  /** The loop of `mine_block`: rejected transactions are dropped. */
  function MineAll(k: Crypto, chainId: string, height: nat, m: Accounts, txs: seq<Transaction>): Batch {
    if txs == [] then StartBatch(m)
    else Take(k, chainId, height, MineAll(k, chainId, height, m, txs[..|txs| - 1]), txs[|txs| - 1])
  }

  /** The loop of `apply_block`: the first rejection ends it. */
  function ApplyAll(k: Crypto, chainId: string, height: nat, m: Accounts, txs: seq<Transaction>): Batch {
    if txs == [] then StartBatch(m)
    else
      var b := ApplyAll(k, chainId, height, m, txs[..|txs| - 1]);
      if b.failed then b else Take(k, chainId, height, b, txs[|txs| - 1])
  }

  function TxHashes(receipts: seq<Receipt>): seq<Hash32> {
    seq(|receipts|, i requires 0 <= i < |receipts| => receipts[i].txHash)
  }

  function ReceiptHashes(k: Crypto, receipts: seq<Receipt>): seq<Hash32> {
    seq<Hash32>(|receipts|, i requires 0 <= i < |receipts| => k.receiptHash(receipts[i]))
  }

  // ---------------------------------------------------------------------------------
  // Operations

  datatype SubmitError = AlreadyIncluded | AlreadyPending | NotExecutable(reason: ExecError)

  datatype SubmitResult = Accepted(hash: Hash32) | Refused(error: SubmitError)

  predicate Pending(k: Crypto, mempool: seq<Transaction>, x: Hash32) {
    exists i :: 0 <= i < |mempool| && k.txHash(mempool[i]) == x
  }

  /** `submit_transaction`. */
  function Submit(k: Crypto, s: LedgerState, tx: Transaction): (LedgerState, SubmitResult) {
    var x := k.txHash(tx);
    if x in s.txIndex then (s, Refused(AlreadyIncluded))
    else if Pending(k, s.mempool, x) then (s, Refused(AlreadyPending))
    else
      var no := Refusal(k, AccountsOf(s), tx, s.genesis.chainId);
      if no.Some? then (s, Refused(NotExecutable(no.value)))
      else (s.(mempool := s.mempool + [tx]), Accepted(x))
  }

  function MinedBatch(k: Crypto, s: LedgerState): Batch {
    MineAll(k, s.genesis.chainId, |s.blocks|, AccountsOf(s), s.mempool)
  }

  function MinedBlock(k: Crypto, s: LedgerState, proposer: Address): Block
    requires s.blocks != []
  {
    var parent := s.blocks[|s.blocks| - 1].header;
    var b := MinedBatch(k, s);
    Block(Header(1, s.genesis.chainId, |s.blocks|, parent.timestamp + 2, k.blockHash(parent), proposer,
                 k.stateRoot(b.accounts), TreeRoot(k.hash, TxHashes(b.receipts)),
                 TreeRoot(k.hash, ReceiptHashes(k, b.receipts)), parent.validatorSetHash),
          b.executed, [])
  }

  /** Append a block whose transactions have been executed with `writes`. */
  function Commit(k: Crypto, s: LedgerState, b: Block, writes: seq<Write>): LedgerState {
    s.(journal := s.journal + writes + CommitWrites(k, b),
       blocks := s.blocks + [b],
       blockByHash := s.blockByHash[k.blockHash(b.header) := b.header.height],
       txIndex := IndexAfter(s.txIndex, writes))
  }

  /** `mine_block`. */
  function Mine(k: Crypto, s: LedgerState, proposer: Address): (LedgerState, Block)
    requires s.blocks != []
  {
    var b := MinedBlock(k, s, proposer);
    (Commit(k, s.(mempool := []), b, MinedBatch(k, s).writes), b)
  }

  /** `RefusedLate` is a refusal after transactions have been executed on the store. */
  datatype ApplyResult = Skipped | Applied(receipts: seq<Receipt>) | RefusedEarly | RefusedLate

  predicate FitsTip(k: Crypto, s: LedgerState, b: Block)
    requires s.blocks != []
  {
    && b.header.height == |s.blocks|
    && b.header.chainId == s.genesis.chainId
    && b.header.parentHash == k.blockHash(s.blocks[|s.blocks| - 1].header)
  }

  function AppliedBatch(k: Crypto, s: LedgerState, b: Block): Batch {
    ApplyAll(k, s.genesis.chainId, b.header.height, AccountsOf(s), b.transactions)
  }

  /** Steps 5 to 7b: all transactions execute and the three roots match the header. */
  predicate RootsMatch(k: Crypto, batch: Batch, h: Header) {
    && !batch.failed
    && k.stateRoot(batch.accounts) == h.stateRoot
    && TreeRoot(k.hash, TxHashes(batch.receipts)) == h.txsRoot
    && TreeRoot(k.hash, ReceiptHashes(k, batch.receipts)) == h.receiptsRoot
  }

  /** The mempool without the transactions that are indexed now. */
  function Unindexed(k: Crypto, mempool: seq<Transaction>, index: map<Hash32, TxEntry>): seq<Transaction> {
    if mempool == [] then []
    else
      var front := Unindexed(k, mempool[..|mempool| - 1], index);
      var tx := mempool[|mempool| - 1];
      if k.txHash(tx) in index then front else front + [tx]
  }

  /** `apply_block`. */
  function Apply(k: Crypto, s: LedgerState, b: Block): (LedgerState, ApplyResult)
    requires s.blocks != []
  {
    if b.header.height < |s.blocks| then (s, Skipped)
    else if !FitsTip(k, s, b) then (s, RefusedEarly)
    else
      var batch := AppliedBatch(k, s, b);
      if !RootsMatch(k, batch, b.header) then
        (s.(journal := s.journal + batch.writes, txIndex := IndexAfter(s.txIndex, batch.writes)), RefusedLate)
      else
        var t := Commit(k, s, b, batch.writes);
        (t.(mempool := Unindexed(k, s.mempool, t.txIndex)), Applied(batch.receipts))
  }

  /** `set_last_commit`. */
  function SetLastCommit(k: Crypto, s: LedgerState, h: nat, sigs: seq<CommitSignature>): LedgerState {
    if h >= |s.blocks| then s
    else
      var b := s.blocks[h].(lastCommit := sigs);
      s.(blocks := s.blocks[h := b], journal := s.journal + [PutBlock(h, b), PutBlockHash(k.blockHash(b.header), h)])
  }

  /** `apply_blocks_batch`: the number of blocks accepted, or `None` at the first error. */
  function ApplyMany(k: Crypto, s: LedgerState, bs: seq<Block>): (LedgerState, Option<nat>)
    requires s.blocks != []
    ensures ApplyMany(k, s, bs).0.blocks != []
  {
    if bs == [] then (s, Some(0))
    else
      var (t, n) := ApplyMany(k, s, bs[..|bs| - 1]);
      if n.None? then (t, None)
      else
        var (u, r) := Apply(k, t, bs[|bs| - 1]);
        (u, if r.RefusedEarly? || r.RefusedLate? then None else Some(n.value + 1))
  }

  // ---------------------------------------------------------------------------------
  // Reopening

  /** The hash index of a chain. */
  function HashIndex(k: Crypto, blocks: seq<Block>): map<Hash32, nat> {
    if blocks == [] then map[]
    else HashIndex(k, blocks[..|blocks| - 1])[k.blockHash(blocks[|blocks| - 1].header) := |blocks| - 1]
  }

  /** The index entries of a list of transactions, as far as the store has them. */
  function TxEntries(k: Crypto, index: map<Hash32, TxEntry>, txs: seq<Transaction>): map<Hash32, TxEntry> {
    if txs == [] then map[]
    else
      var m := TxEntries(k, index, txs[..|txs| - 1]);
      var x := k.txHash(txs[|txs| - 1]);
      if x in index then m[x := index[x]] else m
  }

  /** All transactions of a chain, in order. */
  function ChainTxs(blocks: seq<Block>): seq<Transaction> {
    if blocks == [] then [] else ChainTxs(blocks[..|blocks| - 1]) + blocks[|blocks| - 1].transactions
  }

  /** The blocks stored at heights `0` to `n - 1`; `None` if one is missing. */
  function StoredBlocks(stored: map<nat, Block>, n: nat): (r: Option<seq<Block>>)
    ensures r.Some? ==> |r.value| == n
  {
    if n == 0 then Some([])
    else
      var front := StoredBlocks(stored, n - 1);
      if front.None? || n - 1 !in stored then None else Some(front.value + [stored[n - 1]])
  }

  /** `rebuild_from_store` on the store that a journal has produced. */
  function Rebuild(k: Crypto, g: Genesis, journal: seq<Write>): Option<LedgerState> {
    var store := WriteAll(EMPTY_STORE, journal);
    if store.height.None? then None
    else
      var blocks := StoredBlocks(store.blocks, store.height.value + 1);
      if blocks.None? then None
      else Some(LedgerState(g, journal, blocks.value, HashIndex(k, blocks.value),
                            TxEntries(k, store.txIndex, ChainTxs(blocks.value)), []))
  }

  // ---------------------------------------------------------------------------------
  // The ledger object

  class ChainLedger {
    const k: Crypto
    const genesis: Genesis
    const store: ChainStore
    var blocks: seq<Block>
    var blockByHash: map<Hash32, nat>
    var txIndex: map<Hash32, TxEntry>
    var mempool: seq<Transaction>

    ghost function State(): LedgerState
      reads this, store
    {
      LedgerState(genesis, store.journal, blocks, blockByHash, txIndex, mempool)
    }

    ghost predicate Valid()
      reads this, store
    {
      store.Valid() && blocks != []
    }

    constructor (k: Crypto, genesis: Genesis)
      ensures Valid() && fresh(store) && this.k == k && State() == Init(k, genesis)
    {
      this.k, this.genesis := k, genesis;
      var st := new ChainStore();
      for i := 0 to |genesis.accounts|
        invariant st.Valid() && fresh(st)
        invariant st.journal == GenesisWrites(genesis.accounts[..i])
      {
        assert genesis.accounts[..i + 1][..i] == genesis.accounts[..i];
        st.Put(PutAccount(genesis.accounts[i].address, Account(0, genesis.accounts[i].balance, ZERO_HASH, ZERO_HASH)));
      }
      assert genesis.accounts[..|genesis.accounts|] == genesis.accounts;
      WriteParts(EMPTY_STORE, st.journal);
      var b := GenesisBlock(k, genesis);
      st.Put(PutBlock(0, b));
      st.Put(PutBlockHash(k.blockHash(b.header), 0));
      st.Put(PutHeight(0));
      store := st;
      blocks, blockByHash := [b], map[k.blockHash(b.header) := 0];
      txIndex, mempool := map[], [];
    }

    lemma StoreAccounts()
      requires store.Valid()
      ensures store.data.accounts == AccountsOf(State())
      ensures store.data.txIndex == IndexAfter(map[], store.journal)
    {
      WriteParts(EMPTY_STORE, store.journal);
    }

    method SubmitTransaction(tx: Transaction) returns (r: SubmitResult)
      requires Valid()
      modifies this`mempool
      ensures Valid() && (State(), r) == Submit(k, old(State()), tx)
    {
      StoreAccounts();
      var x := k.txHash(tx);
      if x in txIndex { return Refused(AlreadyIncluded); }
      for i := 0 to |mempool|
        invariant forall j :: 0 <= j < i ==> k.txHash(mempool[j]) != x
      {
        if k.txHash(mempool[i]) == x { return Refused(AlreadyPending); }
      }
      var no := Refusal(k, store.data.accounts, tx, genesis.chainId);
      if no.Some? { return Refused(NotExecutable(no.value)); }
      mempool := mempool + [tx];
      r := Accepted(x);
    }

    /** Executes one transaction of a block and indexes it. */
    method ExecuteOne(tx: Transaction, height: nat) returns (receipt: Option<Receipt>)
      requires Valid()
      modifies this`txIndex, store
      ensures Valid()
      ensures var r := Execute(k, old(store.data.accounts), tx, height, genesis.chainId);
        && store.data.accounts == r.accounts
        && store.journal == old(store.journal) + TxWrites(r, tx, height)
        && txIndex == IndexAfter(old(txIndex), TxWrites(r, tx, height))
        && receipt == if r.outcome.Executed? then Some(r.outcome.receipt) else None
    {
      ghost var r := Execute(k, store.data.accounts, tx, height, genesis.chainId);
      ExecuteWritesAccounts(k, store.data.accounts, tx, height, genesis.chainId);
      OnlyAccounts(txIndex, r.writes);
      var outcome := ExecuteTransaction(k, store, tx, height, genesis.chainId);
      if outcome.Rejected? { return None; }
      var e := TxEntry(tx, outcome.receipt, height);
      IndexOneMore(txIndex, r.writes, PutTx(outcome.receipt.txHash, e));
      txIndex := txIndex[outcome.receipt.txHash := e];
      store.Put(PutTx(outcome.receipt.txHash, e));
      receipt := Some(outcome.receipt);
    }

    /** The object holds what `batch` made of the accounts, journal and index at its start. */
    ghost predicate Holds(batch: Batch, journal: seq<Write>, index: map<Hash32, TxEntry>)
      reads this, store
    {
      && store.data.accounts == batch.accounts
      && store.journal == journal + batch.writes
      && txIndex == IndexAfter(index, batch.writes)
    }

    /** One round of the execution loops. */
    method ExecuteNext(tx: Transaction, height: nat, ghost batch: Batch,
                       ghost journal: seq<Write>, ghost index: map<Hash32, TxEntry>)
        returns (receipt: Option<Receipt>)
      requires Valid() && Holds(batch, journal, index)
      modifies this`txIndex, store
      ensures Valid() && Holds(Take(k, genesis.chainId, height, batch, tx), journal, index)
      ensures var t := Take(k, genesis.chainId, height, batch, tx);
        if receipt.Some?
        then t.executed == batch.executed + [tx] && t.receipts == batch.receipts + [receipt.value]
             && t.failed == batch.failed
        else t.executed == batch.executed && t.receipts == batch.receipts && t.failed
    {
      ghost var r := Execute(k, batch.accounts, tx, height, genesis.chainId);
      IndexConcat(index, batch.writes, TxWrites(r, tx, height));
      receipt := ExecuteOne(tx, height);
      assert journal + batch.writes + TxWrites(r, tx, height) == journal + (batch.writes + TxWrites(r, tx, height));
    }

    /** The loop of `mine_block`. */
    method ExecutePending(pending: seq<Transaction>, height: nat)
        returns (executed: seq<Transaction>, receipts: seq<Receipt>)
      requires Valid()
      modifies this`txIndex, store
      ensures Valid()
      ensures var batch := MineAll(k, genesis.chainId, height, old(store.data.accounts), pending);
        && Holds(batch, old(store.journal), old(txIndex))
        && executed == batch.executed && receipts == batch.receipts
    {
      executed, receipts := [], [];
      ghost var start := store.data.accounts;
      ghost var batch := StartBatch(start);
      assert store.journal + [] == store.journal;
      for i := 0 to |pending|
        invariant Valid() && batch == MineAll(k, genesis.chainId, height, start, pending[..i])
        invariant Holds(batch, old(store.journal), old(txIndex))
        invariant executed == batch.executed && receipts == batch.receipts
      {
        MineOneMore(k, genesis.chainId, height, start, pending, i);
        var receipt := ExecuteNext(pending[i], height, batch, old(store.journal), old(txIndex));
        batch := Take(k, genesis.chainId, height, batch, pending[i]);
        if receipt.Some? {
          executed, receipts := executed + [pending[i]], receipts + [receipt.value];
        }
      }
      assert pending[..|pending|] == pending;
    }

    /** The loop of `apply_block`; `None` when a transaction is rejected. */
    method ExecuteAll(txs: seq<Transaction>, height: nat) returns (receipts: Option<seq<Receipt>>)
      requires Valid()
      modifies this`txIndex, store
      ensures Valid()
      ensures var batch := ApplyAll(k, genesis.chainId, height, old(store.data.accounts), txs);
        && Holds(batch, old(store.journal), old(txIndex))
        && receipts == if batch.failed then None else Some(batch.receipts)
    {
      var done := [];
      ghost var start := store.data.accounts;
      ghost var batch := StartBatch(start);
      assert store.journal + [] == store.journal;
      for i := 0 to |txs|
        invariant Valid() && batch == ApplyAll(k, genesis.chainId, height, start, txs[..i])
        invariant Holds(batch, old(store.journal), old(txIndex))
        invariant !batch.failed && done == batch.receipts
      {
        ApplyOneMore(k, genesis.chainId, height, start, txs, i);
        var receipt := ExecuteNext(txs[i], height, batch, old(store.journal), old(txIndex));
        batch := Take(k, genesis.chainId, height, batch, txs[i]);
        if receipt.None? {
          FailureStays(k, genesis.chainId, height, start, txs, i + 1);
          return None;
        }
        done := done + [receipt.value];
      }
      assert txs[..|txs|] == txs;
      receipts := Some(done);
    }

    /** Persists a block and makes it the tip. */
    method Append(b: Block)
      requires Valid()
      modifies this, store
      ensures Valid() && store.journal == old(store.journal) + CommitWrites(k, b)
      ensures blocks == old(blocks) + [b] && txIndex == old(txIndex) && mempool == old(mempool)
      ensures blockByHash == old(blockByHash)[k.blockHash(b.header) := b.header.height]
    {
      var x := k.blockHash(b.header);
      blockByHash := blockByHash[x := b.header.height];
      store.Put(PutBlock(b.header.height, b));
      store.Put(PutBlockHash(x, b.header.height));
      store.Put(PutHeight(b.header.height));
      blocks := blocks + [b];
    }

    method MineBlock(proposer: Address) returns (b: Block)
      requires Valid()
      modifies this, store
      ensures Valid() && (State(), b) == Mine(k, old(State()), proposer)
    {
      StoreAccounts();
      var height, parent := |blocks|, blocks[|blocks| - 1].header;
      var pending := mempool;
      mempool := [];
      var executed, receipts := ExecutePending(pending, height);
      var txsRoot := MerkleRoot(k.hash, TxHashes(receipts));
      var receiptsRoot := MerkleRoot(k.hash, ReceiptHashes(k, receipts));
      b := Block(Header(1, genesis.chainId, height, parent.timestamp + 2, k.blockHash(parent), proposer,
                        k.stateRoot(store.data.accounts), txsRoot, receiptsRoot, parent.validatorSetHash),
                 executed, []);
      Append(b);
    }

    method ApplyBlock(b: Block) returns (r: ApplyResult)
      requires Valid()
      modifies this, store
      ensures Valid() && (State(), r) == Apply(k, old(State()), b)
    {
      StoreAccounts();
      if b.header.height < |blocks| { return Skipped; }
      if b.header.height != |blocks| { return RefusedEarly; }
      if b.header.chainId != genesis.chainId { return RefusedEarly; }
      if b.header.parentHash != k.blockHash(blocks[|blocks| - 1].header) { return RefusedEarly; }
      var receipts := ExecuteAll(b.transactions, b.header.height);
      if receipts.None? { return RefusedLate; }
      if k.stateRoot(store.data.accounts) != b.header.stateRoot { return RefusedLate; }
      var txsRoot := MerkleRoot(k.hash, TxHashes(receipts.value));
      if txsRoot != b.header.txsRoot { return RefusedLate; }
      var receiptsRoot := MerkleRoot(k.hash, ReceiptHashes(k, receipts.value));
      if receiptsRoot != b.header.receiptsRoot { return RefusedLate; }
      Append(b);
      DropIndexed();
      r := Applied(receipts.value);
    }

    /** `mempool.retain`: what is indexed leaves the mempool. */
    method DropIndexed()
      modifies this`mempool
      ensures mempool == Unindexed(k, old(mempool), txIndex)
    {
      var kept := [];
      for i := 0 to |mempool|
        invariant kept == Unindexed(k, mempool[..i], txIndex)
      {
        assert mempool[..i + 1][..i] == mempool[..i];
        if k.txHash(mempool[i]) !in txIndex { kept := kept + [mempool[i]]; }
      }
      assert mempool[..|mempool|] == mempool;
      mempool := kept;
    }

    method ApplyBlocksBatch(bs: seq<Block>) returns (count: Option<nat>)
      requires Valid()
      modifies this, store
      ensures Valid() && (State(), count) == ApplyMany(k, old(State()), bs)
    {
      var n := 0;
      for i := 0 to |bs|
        invariant Valid() && n == i
        invariant (State(), Some(n)) == ApplyMany(k, old(State()), bs[..i])
      {
        assert bs[..i + 1][..i] == bs[..i];
        var r := ApplyBlock(bs[i]);
        if r.RefusedEarly? || r.RefusedLate? {
          ErrorStays(k, old(State()), bs, i + 1);
          return None;
        }
        n := n + 1;
      }
      assert bs[..|bs|] == bs;
      count := Some(n);
    }

    /** `set_last_commit`; it fails when there is no block at that height. */
    method RecordCommit(h: nat, sigs: seq<CommitSignature>) returns (ok: bool)
      requires Valid()
      modifies this`blocks, store
      ensures Valid() && State() == SetLastCommit(k, old(State()), h, sigs)
      ensures ok <==> h < |old(blocks)|
    {
      if h >= |blocks| { return false; }
      blocks := blocks[h := blocks[h].(lastCommit := sigs)];
      store.Put(PutBlock(h, blocks[h]));
      store.Put(PutBlockHash(k.blockHash(blocks[h].header), h));
      ok := true;
    }

    /** `get_blocks_range`: stops at the first missing height. */
    method GetBlocksRange(first: nat, last: nat) returns (bs: seq<Block>)
      ensures bs == Range(blocks, first, last)
    {
      bs := [];
      var h := first;
      while h <= last && h < |blocks|
        invariant h == first || first < h <= |blocks|
        invariant h == first || h <= last + 1
        invariant bs == if h == first then [] else blocks[first..h]
        decreases last + 1 - h
      {
        bs := bs + [blocks[h]];
        h := h + 1;
      }
    }

    /** Adds the index entries of a block's transactions, as far as the store has them. */
    static method ReadEntries(k: Crypto, stored: map<Hash32, TxEntry>, index: map<Hash32, TxEntry>,
                              ghost seen: seq<Transaction>, txs: seq<Transaction>)
        returns (r: map<Hash32, TxEntry>)
      requires index == TxEntries(k, stored, seen)
      ensures r == TxEntries(k, stored, seen + txs)
    {
      r := index;
      assert seen + txs[..0] == seen;
      for i := 0 to |txs|
        invariant r == TxEntries(k, stored, seen + txs[..i])
      {
        assert (seen + txs[..i + 1])[..|seen| + i] == seen + txs[..i];
        var x := k.txHash(txs[i]);
        if x in stored { r := r[x := stored[x]]; }
      }
      assert txs[..|txs|] == txs;
    }

    /** `rebuild_from_store`: reads blocks and indexes back without executing anything.
        `None` when a block is missing. */
    static method ReadBack(k: Crypto, genesis: Genesis, store: ChainStore)
        returns (r: Option<(seq<Block>, map<Hash32, nat>, map<Hash32, TxEntry>)>)
      requires store.Valid()
      ensures r.None? <==> Rebuild(k, genesis, store.journal).None?
      ensures r.Some? ==> var s := Rebuild(k, genesis, store.journal).value;
        r.value == (s.blocks, s.blockByHash, s.txIndex)
    {
      if store.data.height.None? { return None; }
      var blocks: seq<Block>, byHash: map<Hash32, nat>, index: map<Hash32, TxEntry> := [], map[], map[];
      var n := store.data.height.value + 1;
      for h := 0 to n
        invariant StoredBlocks(store.data.blocks, h) == Some(blocks)
        invariant byHash == HashIndex(k, blocks)
        invariant index == TxEntries(k, store.data.txIndex, ChainTxs(blocks))
      {
        if h !in store.data.blocks {
          MissingStays(store.data.blocks, h + 1, n);
          return None;
        }
        var b := store.data.blocks[h];
        byHash := byHash[k.blockHash(b.header) := h];
        index := ReadEntries(k, store.data.txIndex, index, ChainTxs(blocks), b.transactions);
        assert (blocks + [b])[..|blocks|] == blocks;
        blocks := blocks + [b];
      }
      r := Some((blocks, byHash, index));
    }
  }

  /** The blocks at heights `first` to `last`, as far as the chain goes. */
  function Range(blocks: seq<Block>, first: nat, last: nat): seq<Block> {
    if first >= |blocks| || first > last then []
    else if last < |blocks| then blocks[first..last + 1] else blocks[first..]
  }

  // ---------------------------------------------------------------------------------
  // Loop lemmas

  lemma {:induction false} OnlyAccounts(m: map<Hash32, TxEntry>, ws: seq<Write>)
    requires forall w <- ws :: w.PutAccount?
    ensures IndexAfter(m, ws) == m
  {
    if ws != [] {
      assert ws[|ws| - 1] in ws;
      OnlyAccounts(m, ws[..|ws| - 1]);
    }
  }

  lemma MineOneMore(k: Crypto, chainId: string, height: nat, m: Accounts, txs: seq<Transaction>, i: nat)
    requires i < |txs|
    ensures MineAll(k, chainId, height, m, txs[..i + 1])
      == Take(k, chainId, height, MineAll(k, chainId, height, m, txs[..i]), txs[i])
  {
    assert txs[..i + 1][..i] == txs[..i];
  }

  lemma ApplyOneMore(k: Crypto, chainId: string, height: nat, m: Accounts, txs: seq<Transaction>, i: nat)
    requires i < |txs|
    ensures var b := ApplyAll(k, chainId, height, m, txs[..i]);
      ApplyAll(k, chainId, height, m, txs[..i + 1]) == if b.failed then b else Take(k, chainId, height, b, txs[i])
  {
    assert txs[..i + 1][..i] == txs[..i];
  }

  lemma {:induction false} FailureStays(k: Crypto, chainId: string, height: nat, m: Accounts,
                                        txs: seq<Transaction>, i: nat)
    requires i <= |txs| && ApplyAll(k, chainId, height, m, txs[..i]).failed
    ensures ApplyAll(k, chainId, height, m, txs) == ApplyAll(k, chainId, height, m, txs[..i])
    decreases |txs|
  {
    if i < |txs| {
      assert txs[..|txs| - 1][..i] == txs[..i];
      FailureStays(k, chainId, height, m, txs[..|txs| - 1], i);
    } else {
      assert txs[..i] == txs;
    }
  }

  lemma {:induction false} ErrorStays(k: Crypto, s: LedgerState, bs: seq<Block>, i: nat)
    requires s.blocks != [] && i <= |bs| && ApplyMany(k, s, bs[..i]).1.None?
    ensures ApplyMany(k, s, bs) == ApplyMany(k, s, bs[..i])
    decreases |bs|
  {
    if i < |bs| {
      assert bs[..|bs| - 1][..i] == bs[..i];
      ErrorStays(k, s, bs[..|bs| - 1], i);
    } else {
      assert bs[..i] == bs;
    }
  }

  lemma {:induction false} MissingStays(stored: map<nat, Block>, i: nat, n: nat)
    requires i <= n && StoredBlocks(stored, i).None?
    ensures StoredBlocks(stored, n).None?
    decreases n
  {
    if i < n { MissingStays(stored, i, n - 1); }
  }
}
