/** Transactions, receipts, blocks, accounts and the persistent store. */
module ChainTypes {
  import opened Basics

  datatype TxMessage =
    | Transfer(to: Address, amount: Amount)
    | Delegate(validator: Address, amount: Amount)
    | Unbond(validator: Address, amount: Amount)
    | ContractCall(contract: Address, data: Bytes)
    | Generic(typeUrl: string, payload: Bytes)

  datatype Transaction = Transaction(
    chainId: string, sender: Address, nonce: nat, messages: seq<TxMessage>, fee: Amount,
    memo: string, timeoutHeight: nat, publicKey: Bytes, signature: Bytes)

  datatype Receipt = Receipt(
    txHash: Hash32, height: nat, success: bool, gasUsed: nat,
    errorMessage: Option<string>, returnData: Bytes)

  datatype CommitSignature = CommitSignature(validator: Address, signature: Bytes, timestamp: nat)

  datatype Header = Header(
    version: nat, chainId: string, height: nat, timestamp: nat, parentHash: Hash32,
    proposer: Address, stateRoot: Hash32, txsRoot: Hash32, receiptsRoot: Hash32,
    validatorSetHash: Hash32)

  datatype Block = Block(header: Header, transactions: seq<Transaction>, lastCommit: seq<CommitSignature>)

  datatype Account = Account(nonce: nat, balance: Amount, codeHash: Hash32, storageRoot: Hash32)

  type Accounts = map<Address, Account>

  const DEFAULT_ACCOUNT := Account(0, 0, ZERO_HASH, ZERO_HASH)

  /** `StateAccessor::get_account`: an absent account reads as the default one. */
  function Get(m: Accounts, a: Address): Account {
    if a in m then m[a] else DEFAULT_ACCOUNT
  }

  /** The hash functions and the signature check, which this model does not look into.
      `authentic` stands for the match of public key and sender and the signature check. */
  datatype Crypto = Crypto(
    hash: Bytes -> Hash32, txHash: Transaction -> Hash32, receiptHash: Receipt -> Hash32,
    blockHash: Header -> Hash32, stateRoot: Accounts -> Hash32, authentic: Transaction -> bool)

  // ---------------------------------------------------------------------------------
  // The store

  datatype TxEntry = TxEntry(tx: Transaction, receipt: Receipt, height: nat)

  /** One write to the store; a crash can fall between any two of them. */
  datatype Write =
    | PutAccount(a: Address, account: Account)
    | PutBlock(h: nat, block: Block)
    | PutBlockHash(hash: Hash32, h: nat)
    | PutTx(hash: Hash32, entry: TxEntry)
    | PutHeight(h: nat)

  datatype Store = Store(
    accounts: Accounts, height: Option<nat>, blocks: map<nat, Block>,
    hashIndex: map<Hash32, nat>, txIndex: map<Hash32, TxEntry>)

  const EMPTY_STORE := Store(map[], None, map[], map[], map[])

  function Written(s: Store, w: Write): Store {
    match w
    case PutAccount(a, account) => s.(accounts := s.accounts[a := account])
    case PutBlock(h, block) => s.(blocks := s.blocks[h := block])
    case PutBlockHash(x, h) => s.(hashIndex := s.hashIndex[x := h])
    case PutTx(x, e) => s.(txIndex := s.txIndex[x := e])
    case PutHeight(h) => s.(height := Some(h))
  }

  function WriteAll(s: Store, ws: seq<Write>): Store {
    if ws == [] then s else Written(WriteAll(s, ws[..|ws| - 1]), ws[|ws| - 1])
  }

  lemma WriteOneMore(s: Store, ws: seq<Write>, w: Write)
    ensures WriteAll(s, ws + [w]) == Written(WriteAll(s, ws), w)
  {
    assert (ws + [w])[..|ws|] == ws;
  }

  /** What the writes make of the accounts. */
  function AccountsAfter(m: Accounts, ws: seq<Write>): Accounts {
    if ws == [] then m
    else
      var w := ws[|ws| - 1];
      var n := AccountsAfter(m, ws[..|ws| - 1]);
      if w.PutAccount? then n[w.a := w.account] else n
  }

  /** What the writes make of a transaction index. */
  function IndexAfter(m: map<Hash32, TxEntry>, ws: seq<Write>): map<Hash32, TxEntry> {
    if ws == [] then m
    else
      var w := ws[|ws| - 1];
      var n := IndexAfter(m, ws[..|ws| - 1]);
      if w.PutTx? then n[w.hash := w.entry] else n
  }

  lemma AccountsOneMore(m: Accounts, ws: seq<Write>, w: Write)
    ensures AccountsAfter(m, ws + [w])
      == if w.PutAccount? then AccountsAfter(m, ws)[w.a := w.account] else AccountsAfter(m, ws)
  {
    assert (ws + [w])[..|ws|] == ws;
  }

  lemma IndexOneMore(m: map<Hash32, TxEntry>, ws: seq<Write>, w: Write)
    ensures IndexAfter(m, ws + [w])
      == if w.PutTx? then IndexAfter(m, ws)[w.hash := w.entry] else IndexAfter(m, ws)
  {
    assert (ws + [w])[..|ws|] == ws;
  }

  lemma {:induction false} AccountsConcat(m: Accounts, vs: seq<Write>, ws: seq<Write>)
    ensures AccountsAfter(m, vs + ws) == AccountsAfter(AccountsAfter(m, vs), ws)
  {
    if ws == [] {
      assert vs + ws == vs;
    } else {
      AccountsConcat(m, vs, ws[..|ws| - 1]);
      assert (vs + ws)[..|vs + ws| - 1] == vs + ws[..|ws| - 1];
    }
  }

  lemma {:induction false} IndexConcat(m: map<Hash32, TxEntry>, vs: seq<Write>, ws: seq<Write>)
    ensures IndexAfter(m, vs + ws) == IndexAfter(IndexAfter(m, vs), ws)
  {
    if ws == [] {
      assert vs + ws == vs;
    } else {
      IndexConcat(m, vs, ws[..|ws| - 1]);
      assert (vs + ws)[..|vs + ws| - 1] == vs + ws[..|ws| - 1];
    }
  }

  lemma {:induction false} WriteParts(s: Store, ws: seq<Write>)
    ensures WriteAll(s, ws).accounts == AccountsAfter(s.accounts, ws)
    ensures WriteAll(s, ws).txIndex == IndexAfter(s.txIndex, ws)
  {
    if ws != [] { WriteParts(s, ws[..|ws| - 1]); }
  }

  /** The store object. `journal` lists all writes since the store was created. */
  class ChainStore {
    var data: Store
    var journal: seq<Write>

    ghost predicate Valid()
      reads this
    {
      data == WriteAll(EMPTY_STORE, journal)
    }

    constructor ()
      ensures Valid() && data == EMPTY_STORE && journal == []
    {
      data, journal := EMPTY_STORE, [];
    }

    method Put(w: Write)
      requires Valid()
      modifies this
      ensures Valid() && data == Written(old(data), w) && journal == old(journal) + [w]
    {
      WriteOneMore(EMPTY_STORE, journal, w);
      data, journal := Written(data, w), journal + [w];
    }
  }
}
