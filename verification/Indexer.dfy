/** The explorer's index: secondary indexes over inserted transactions and blocks, and
    paginated reads. */
module Indexer {
  import opened Basics

  datatype IndexedTx = IndexedTx(
    hash: Hash32, height: nat, sender: Address, recipient: Option<Address>, amount: Amount, memo: string)

  datatype IndexedBlock = IndexedBlock(hash: Hash32, height: nat, proposer: Address)

  /** `blocks` is the ordered map from heights to blocks, as its values by ascending height. */
  datatype IndexState = IndexState(
    blocks: seq<IndexedBlock>, heightByHash: map<Hash32, nat>, txs: map<Hash32, IndexedTx>,
    hashesByHeight: map<nat, seq<Hash32>>, hashesByAddress: map<Address, seq<Hash32>>, chronological: seq<Hash32>)

  const EMPTY_INDEX := IndexState([], map[], map[], map[], map[], [])

  // ---------------------------------------------------------------------------------
  // Insertions

  predicate Ascending(bs: seq<IndexedBlock>) {
    forall i, j :: 0 <= i < j < |bs| ==> bs[i].height < bs[j].height
  }

  /** Insertion into the ordered map. */
  function PutByHeight(bs: seq<IndexedBlock>, b: IndexedBlock): (r: seq<IndexedBlock>)
    ensures Ascending(bs) ==> Ascending(r)
    ensures forall x :: x in r ==> x in bs || x == b
    ensures Ascending(bs) ==> forall x :: x in r <==> x == b || (x in bs && x.height != b.height)
  {
    if bs == [] || b.height < bs[0].height then [b] + bs
    else if b.height == bs[0].height then [b] + bs[1..]
    else
      var tail := PutByHeight(bs[1..], b);
      assert forall i :: 0 <= i < |tail| ==> tail[i] in tail;
      [bs[0]] + tail
  }

  function InsertBlock(s: IndexState, b: IndexedBlock): IndexState {
    s.(heightByHash := s.heightByHash[b.hash := b.height], blocks := PutByHeight(s.blocks, b))
  }

  /** `entry(key).or_default()`. */
  function Listed<K>(m: map<K, seq<Hash32>>, key: K): seq<Hash32> {
    if key in m then m[key] else []
  }

  function Push<K>(m: map<K, seq<Hash32>>, key: K, x: Hash32): map<K, seq<Hash32>> {
    m[key := Listed(m, key) + [x]]
  }

  function InsertTx(s: IndexState, tx: IndexedTx): IndexState {
    var byAddress := Push(s.hashesByAddress, tx.sender, tx.hash);
    s.(txs := s.txs[tx.hash := tx],
       chronological := s.chronological + [tx.hash],
       hashesByHeight := Push(s.hashesByHeight, tx.height, tx.hash),
       hashesByAddress :=
         if tx.recipient.Some? && tx.recipient.value != tx.sender then Push(byAddress, tx.recipient.value, tx.hash)
         else byAddress)
  }

  // ---------------------------------------------------------------------------------
  // Paginated reads

  datatype Page<T> = Page(items: seq<T>, total: nat, limit: nat, offset: nat, hasMore: bool)

  function Reversed<T>(s: seq<T>): seq<T> {
    seq(|s|, i requires 0 <= i < |s| => s[|s| - 1 - i])
  }

  function SkipTake<T>(s: seq<T>, offset: nat, limit: nat): seq<T> {
    if offset >= |s| then [] else if offset + limit <= |s| then s[offset..offset + limit] else s[offset..]
  }

  /** `filter_map(|h| txs.get(h))`. */
  function Found(hashes: seq<Hash32>, txs: map<Hash32, IndexedTx>): seq<IndexedTx> {
    if hashes == [] then []
    else
      var x := hashes[|hashes| - 1];
      Found(hashes[..|hashes| - 1], txs) + if x in txs then [txs[x]] else []
  }

  function MakePage<T>(items: seq<T>, total: nat, limit: nat, offset: nat): Page<T> {
    Page(items, total, limit, offset, offset + |items| < total)
  }

  function BlocksPage(s: IndexState, limit: nat, offset: nat): Page<IndexedBlock> {
    MakePage(SkipTake(Reversed(s.blocks), offset, limit), |s.blocks|, limit, offset)
  }

  function HashesPage(s: IndexState, hashes: seq<Hash32>, limit: nat, offset: nat): Page<IndexedTx> {
    MakePage(Found(SkipTake(Reversed(hashes), offset, limit), s.txs), |hashes|, limit, offset)
  }

  function TxsPage(s: IndexState, limit: nat, offset: nat): Page<IndexedTx> {
    HashesPage(s, s.chronological, limit, offset)
  }

  function AddressPage(s: IndexState, a: Address, limit: nat, offset: nat): Page<IndexedTx> {
    HashesPage(s, Listed(s.hashesByAddress, a), limit, offset)
  }

  // ---------------------------------------------------------------------------------
  // The index object

  class IndexStore {
    var blocks: seq<IndexedBlock>
    var heightByHash: map<Hash32, nat>
    var txs: map<Hash32, IndexedTx>
    var hashesByHeight: map<nat, seq<Hash32>>
    var hashesByAddress: map<Address, seq<Hash32>>
    var chronological: seq<Hash32>

    ghost function State(): IndexState
      reads this
    {
      IndexState(blocks, heightByHash, txs, hashesByHeight, hashesByAddress, chronological)
    }

    constructor ()
      ensures State() == EMPTY_INDEX
    {
      blocks, heightByHash, txs := [], map[], map[];
      hashesByHeight, hashesByAddress, chronological := map[], map[], [];
    }

    method AddBlock(b: IndexedBlock)
      modifies this`blocks, this`heightByHash
      ensures State() == InsertBlock(old(State()), b)
    {
      heightByHash := heightByHash[b.hash := b.height];
      blocks := PutByHeight(blocks, b);
    }

    method AddTx(tx: IndexedTx)
      modifies this`txs, this`hashesByHeight, this`hashesByAddress, this`chronological
      ensures State() == InsertTx(old(State()), tx)
    {
      txs := txs[tx.hash := tx];
      chronological := chronological + [tx.hash];
      hashesByHeight := Push(hashesByHeight, tx.height, tx.hash);
      hashesByAddress := Push(hashesByAddress, tx.sender, tx.hash);
      if tx.recipient.Some? {
        if tx.recipient.value != tx.sender {
          hashesByAddress := Push(hashesByAddress, tx.recipient.value, tx.hash);
        }
      }
    }
  }

  // ---------------------------------------------------------------------------------
  // Pages together

  /** The items of the pages at offsets `0`, `limit`, ..., `(n - 1) * limit`. */
  function Together<T>(page: nat -> Page<T>, limit: nat, n: nat): seq<T> {
    if n == 0 then [] else Together(page, limit, n - 1) + page((n - 1) * limit).items
  }

  /** `page` serves the list `all`, newest first. */
  ghost predicate Serves<T(!new)>(page: nat -> Page<T>, all: seq<T>, limit: nat) {
    forall o: nat :: page(o) == MakePage(SkipTake(Reversed(all), o, limit), |all|, limit, o)
  }

  lemma SkipTakeMore<T>(s: seq<T>, o: nat, limit: nat)
    ensures SkipTake(s, 0, o) + SkipTake(s, o, limit) == SkipTake(s, 0, o + limit)
  {
  }

  lemma {:induction false} PagesConcatenate<T(!new)>(page: nat -> Page<T>, all: seq<T>, limit: nat, n: nat)
    requires Serves(page, all, limit)
    ensures Together(page, limit, n) == SkipTake(Reversed(all), 0, n * limit)
  {
    if n > 0 {
      var o := (n - 1) * limit;
      PagesConcatenate(page, all, limit, n - 1);
      SkipTakeMore(Reversed(all), o, limit);
      OffsetStep(n, limit);
      assert page(o).items == SkipTake(Reversed(all), o, limit);
    }
  }

  lemma OffsetStep(n: int, limit: int)
    ensures (n - 1) * limit + limit == n * limit
  {
  }

  /** Pages of at least one item put together give the whole list, newest first, as soon as they
      reach its end; and a page says that there is more exactly when its end is before that of
      the list. */
  lemma PagesComplete<T(!new)>(page: nat -> Page<T>, all: seq<T>, limit: nat, n: nat)
    requires Serves(page, all, limit) && limit >= 1
    ensures n * limit >= |all| ==> Together(page, limit, n) == Reversed(all)
    ensures forall o: nat :: page(o).hasMore <==> o + limit < |all|
    ensures forall o: nat :: page(o).total == |all| && page(o).limit == limit && page(o).offset == o
    ensures forall o: nat ::
      |page(o).items| == if |all| <= o then 0 else if |all| <= o + limit then |all| - o else limit
  {
    PagesConcatenate(page, all, limit, n);
  }

  // ---------------------------------------------------------------------------------
  // Histories

  datatype Entry = TxIn(tx: IndexedTx) | BlockIn(block: IndexedBlock)

  /** The index after the insertions of `log`, transactions and blocks in any order. */
  function Indexed(log: seq<Entry>): IndexState {
    if log == [] then EMPTY_INDEX
    else
      var front := Indexed(log[..|log| - 1]);
      match log[|log| - 1]
      case TxIn(tx) => InsertTx(front, tx)
      case BlockIn(b) => InsertBlock(front, b)
  }

  function TxsIn(log: seq<Entry>): seq<IndexedTx> {
    if log == [] then []
    else TxsIn(log[..|log| - 1]) + if log[|log| - 1].TxIn? then [log[|log| - 1].tx] else []
  }

  function BlocksIn(log: seq<Entry>): seq<IndexedBlock> {
    if log == [] then []
    else BlocksIn(log[..|log| - 1]) + if log[|log| - 1].BlockIn? then [log[|log| - 1].block] else []
  }

  function AfterTxs(s: IndexState, log: seq<IndexedTx>): IndexState {
    if log == [] then s else InsertTx(AfterTxs(s, log[..|log| - 1]), log[|log| - 1])
  }

  predicate Concerns(tx: IndexedTx, a: Address) {
    tx.sender == a || tx.recipient == Some(a)
  }

  function Concerning(log: seq<IndexedTx>, a: Address): seq<IndexedTx> {
    if log == [] then []
    else
      var tx := log[|log| - 1];
      Concerning(log[..|log| - 1], a) + if Concerns(tx, a) then [tx] else []
  }

  function Hashes(log: seq<IndexedTx>): seq<Hash32> {
    seq(|log|, i requires 0 <= i < |log| => log[i].hash)
  }

  predicate DistinctHashes(log: seq<IndexedTx>) {
    forall i, j :: 0 <= i < j < |log| ==> log[i].hash != log[j].hash
  }

  lemma {:induction false} ChronologyOfHistory(log: seq<IndexedTx>)
    ensures AfterTxs(EMPTY_INDEX, log).chronological == Hashes(log)
  {
    if log != [] {
      ChronologyOfHistory(log[..|log| - 1]);
      assert Hashes(log) == Hashes(log[..|log| - 1]) + [log[|log| - 1].hash];
    }
  }

  lemma PushEffect(s: IndexState, tx: IndexedTx, a: Address)
    ensures Listed(InsertTx(s, tx).hashesByAddress, a)
      == Listed(s.hashesByAddress, a) + if Concerns(tx, a) then [tx.hash] else []
  {
  }

  lemma {:induction false} AddressListOfHistory(log: seq<IndexedTx>, a: Address)
    ensures Listed(AfterTxs(EMPTY_INDEX, log).hashesByAddress, a) == Hashes(Concerning(log, a))
  {
    if log != [] {
      var front, tx := log[..|log| - 1], log[|log| - 1];
      AddressListOfHistory(front, a);
      PushEffect(AfterTxs(EMPTY_INDEX, front), tx, a);
      assert Hashes(Concerning(front, a) + [tx]) == Hashes(Concerning(front, a)) + [tx.hash];
    }
  }

  function AtHeight(log: seq<IndexedTx>, h: nat): seq<IndexedTx> {
    if log == [] then []
    else
      var tx := log[|log| - 1];
      AtHeight(log[..|log| - 1], h) + if tx.height == h then [tx] else []
  }

  lemma {:induction false} HeightListOfHistory(log: seq<IndexedTx>, h: nat)
    ensures Listed(AfterTxs(EMPTY_INDEX, log).hashesByHeight, h) == Hashes(AtHeight(log, h))
  {
    if log != [] {
      var front, tx := log[..|log| - 1], log[|log| - 1];
      HeightListOfHistory(front, h);
      assert Hashes(AtHeight(front, h) + [tx]) == Hashes(AtHeight(front, h)) + [tx.hash];
    }
  }

  /** The transaction inserted last under a hash. */
  function LastWith(log: seq<IndexedTx>, x: Hash32): Option<IndexedTx> {
    if log == [] then None
    else if log[|log| - 1].hash == x then Some(log[|log| - 1])
    else LastWith(log[..|log| - 1], x)
  }

  lemma {:induction false} TxsOfHistory(log: seq<IndexedTx>, x: Hash32)
    ensures var m := AfterTxs(EMPTY_INDEX, log).txs;
      && (x in m <==> LastWith(log, x).Some?)
      && (x in m ==> m[x] == LastWith(log, x).value && m[x].hash == x)
  {
    if log != [] { TxsOfHistory(log[..|log| - 1], x); }
  }

  lemma {:induction false} LastExists(log: seq<IndexedTx>, tx: IndexedTx)
    requires tx in log
    ensures LastWith(log, tx.hash).Some?
    ensures DistinctHashes(log) ==> LastWith(log, tx.hash) == Some(tx)
  {
    var front, last := log[..|log| - 1], log[|log| - 1];
    assert log == front + [last];
    if last.hash != tx.hash { LastExists(front, tx); }
  }

  /** Some transactions of the log, each as it was inserted last. */
  function Latest(log: seq<IndexedTx>, part: seq<IndexedTx>): seq<IndexedTx> {
    seq(|part|, i requires 0 <= i < |part| =>
      var last := LastWith(log, part[i].hash);
      if last.Some? then last.value else part[i])
  }

  /** If no hash is inserted twice, these are the transactions themselves. */
  lemma LatestIsItself(log: seq<IndexedTx>, part: seq<IndexedTx>)
    requires DistinctHashes(log) && forall tx <- part :: tx in log
    ensures Latest(log, part) == part
  {
    forall i | 0 <= i < |part| ensures Latest(log, part)[i] == part[i] {
      assert part[i] in part;
      LastExists(log, part[i]);
    }
  }

  lemma LatestStored(log: seq<IndexedTx>, part: seq<IndexedTx>)
    requires forall tx <- part :: tx in log
    ensures var m := AfterTxs(EMPTY_INDEX, log).txs;
      && Hashes(Latest(log, part)) == Hashes(part)
      && forall tx <- Latest(log, part) :: tx.hash in m && m[tx.hash] == tx
  {
    var m, all := AfterTxs(EMPTY_INDEX, log).txs, Latest(log, part);
    forall i | 0 <= i < |part| ensures all[i].hash == part[i].hash && all[i].hash in m && m[all[i].hash] == all[i] {
      assert part[i] in part;
      LastExists(log, part[i]);
      TxsOfHistory(log, part[i].hash);
    }
  }

  lemma {:induction false} ConcerningPart(log: seq<IndexedTx>, a: Address)
    ensures forall tx <- Concerning(log, a) :: tx in log && Concerns(tx, a)
  {
    if log != [] {
      ConcerningPart(log[..|log| - 1], a);
      assert log == log[..|log| - 1] + [log[|log| - 1]];
    }
  }

  lemma {:induction false} FoundAll(part: seq<IndexedTx>, txs: map<Hash32, IndexedTx>)
    requires forall tx <- part :: tx.hash in txs && txs[tx.hash] == tx
    ensures Found(Hashes(part), txs) == part
  {
    if part != [] {
      var front, last := part[..|part| - 1], part[|part| - 1];
      assert last in part && forall tx <- front :: tx in part;
      FoundAll(front, txs);
      assert Hashes(part)[..|part| - 1] == Hashes(front);
      assert part == front + [last];
    }
  }

  lemma HashWindow(part: seq<IndexedTx>, offset: nat, limit: nat)
    ensures SkipTake(Reversed(Hashes(part)), offset, limit) == Hashes(SkipTake(Reversed(part), offset, limit))
  {
  }

  /** A list of hashes of stored transactions is served as these transactions. */
  lemma HashesServed(s: IndexState, part: seq<IndexedTx>, limit: nat)
    requires forall tx <- part :: tx.hash in s.txs && s.txs[tx.hash] == tx
    ensures Serves((o: nat) => HashesPage(s, Hashes(part), limit, o), part, limit)
  {
    forall o: nat
      ensures HashesPage(s, Hashes(part), limit, o) == MakePage(SkipTake(Reversed(part), o, limit), |part|, limit, o)
    {
      var window := SkipTake(Reversed(part), o, limit);
      HashWindow(part, o, limit);
      forall tx <- window ensures tx in part {
        var i :| 0 <= i < |window| && window[i] == tx;
        assert Reversed(part)[o + i] == tx;
      }
      FoundAll(window, s.txs);
    }
  }

  // ---------------------------------------------------------------------------------
  // Blocks

  function AfterBlocks(s: IndexState, log: seq<IndexedBlock>): IndexState {
    if log == [] then s else InsertBlock(AfterBlocks(s, log[..|log| - 1]), log[|log| - 1])
  }

  /** `b` is the last block of its height in the log. */
  predicate LastOfHeight(log: seq<IndexedBlock>, b: IndexedBlock) {
    exists i :: 0 <= i < |log| && log[i] == b && forall j :: i < j < |log| ==> log[j].height != b.height
  }

  lemma LastOneMore(log: seq<IndexedBlock>, b: IndexedBlock, last: IndexedBlock)
    ensures LastOfHeight(log + [last], b) <==> b == last || (LastOfHeight(log, b) && b.height != last.height)
  {
    var more := log + [last];
    assert more[|log|] == last;
    if b != last {
      if LastOfHeight(log, b) && b.height != last.height {
        var i :| 0 <= i < |log| && log[i] == b && forall j :: i < j < |log| ==> log[j].height != b.height;
        assert more[i] == b;
      }
      if LastOfHeight(more, b) {
        var i :| 0 <= i < |more| && more[i] == b && forall j :: i < j < |more| ==> more[j].height != b.height;
        assert log[i] == b && forall j :: i < j < |log| ==> log[j] == more[j];
      }
    }
  }

  lemma {:induction false} BlocksOfHistory(log: seq<IndexedBlock>)
    ensures var bs := AfterBlocks(EMPTY_INDEX, log).blocks;
      Ascending(bs) && forall b: IndexedBlock :: b in bs <==> LastOfHeight(log, b)
  {
    if log != [] {
      var front, last := log[..|log| - 1], log[|log| - 1];
      BlocksOfHistory(front);
      assert log == front + [last];
      forall b: IndexedBlock { LastOneMore(front, b, last); }
    }
  }

  predicate Descending(bs: seq<IndexedBlock>) {
    forall i, j :: 0 <= i < j < |bs| ==> bs[i].height > bs[j].height
  }

  lemma BlocksServed(s: IndexState, limit: nat)
    ensures Serves((o: nat) => BlocksPage(s, limit, o), s.blocks, limit)
  {
  }

  lemma ReversedBlocks(bs: seq<IndexedBlock>)
    requires Ascending(bs)
    ensures Descending(Reversed(bs)) && forall b: IndexedBlock :: b in Reversed(bs) <==> b in bs
  {
    var all := Reversed(bs);
    forall b: IndexedBlock ensures b in all <==> b in bs {
      assert forall i :: 0 <= i < |all| ==> all[i] == bs[|all| - 1 - i];
      assert forall i :: 0 <= i < |all| ==> bs[i] == all[|all| - 1 - i];
    }
  }

  // ---------------------------------------------------------------------------------
  // Transactions and blocks together

  /** The block indexes of `b` and the transaction indexes of `t`. */
  function Joined(b: IndexState, t: IndexState): IndexState {
    IndexState(b.blocks, b.heightByHash, t.txs, t.hashesByHeight, t.hashesByAddress, t.chronological)
  }

  lemma JoinedGrows(b: IndexState, t: IndexState, tx: IndexedTx, block: IndexedBlock)
    ensures InsertTx(Joined(b, t), tx) == Joined(b, InsertTx(t, tx))
    ensures InsertBlock(Joined(b, t), block) == Joined(InsertBlock(b, block), t)
  {
  }

  /** Transactions and blocks do not touch each other's indexes. */
  lemma {:induction false} Interleaved(log: seq<Entry>)
    ensures Indexed(log) == Joined(AfterBlocks(EMPTY_INDEX, BlocksIn(log)), AfterTxs(EMPTY_INDEX, TxsIn(log)))
  {
    if log != [] {
      var front, e := log[..|log| - 1], log[|log| - 1];
      Interleaved(front);
      var b, t := AfterBlocks(EMPTY_INDEX, BlocksIn(front)), AfterTxs(EMPTY_INDEX, TxsIn(front));
      if e.TxIn? {
        JoinedGrows(b, t, e.tx, IndexedBlock(0, 0, 0));
        assert TxsIn(log)[..|TxsIn(log)| - 1] == TxsIn(front);
        assert BlocksIn(log) == BlocksIn(front);
      } else {
        JoinedGrows(b, t, IndexedTx(0, 0, 0, None, 0, ""), e.block);
        assert BlocksIn(log)[..|BlocksIn(log)| - 1] == BlocksIn(front);
        assert TxsIn(log) == TxsIn(front);
      }
    }
  }

  /** After any insertions, an address's pages put together are the reverse of the inserted
      transactions filtered by sender or recipient, each as inserted last under its hash, and
      only the last page has no more. */
  lemma AddressPagesComplete(log: seq<Entry>, a: Address, limit: nat, n: nat)
    requires limit >= 1
    ensures var s := Indexed(log);
      var part := Latest(TxsIn(log), Concerning(TxsIn(log), a));
      var page := (o: nat) => AddressPage(s, a, limit, o);
      && (n * limit >= |part| ==> Together(page, limit, n) == Reversed(part))
      && (forall o: nat :: page(o).hasMore <==> o + limit < |part|)
      && (forall o: nat :: page(o).total == |part| && page(o).limit == limit && page(o).offset == o)
  {
    var s, txs := Indexed(log), TxsIn(log);
    var part := Latest(txs, Concerning(txs, a));
    Interleaved(log);
    AddressListOfHistory(txs, a);
    ConcerningPart(txs, a);
    LatestStored(txs, Concerning(txs, a));
    HashesServed(s, part, limit);
    var page := (o: nat) => AddressPage(s, a, limit, o);
    assert Serves(page, part, limit) by {
      var other := (o: nat) => HashesPage(s, Hashes(part), limit, o);
      assert forall o: nat :: page(o) == other(o);
    }
    PagesComplete(page, part, limit, n);
  }

  /** Likewise all transactions, in the reverse order of insertion. */
  lemma TxPagesComplete(log: seq<Entry>, limit: nat, n: nat)
    requires limit >= 1
    ensures var s := Indexed(log);
      var all := Latest(TxsIn(log), TxsIn(log));
      var page := (o: nat) => TxsPage(s, limit, o);
      && (n * limit >= |all| ==> Together(page, limit, n) == Reversed(all))
      && (forall o: nat :: page(o).hasMore <==> o + limit < |all|)
      && (forall o: nat :: page(o).total == |all| && page(o).limit == limit && page(o).offset == o)
  {
    var s, txs := Indexed(log), TxsIn(log);
    var all := Latest(txs, txs);
    Interleaved(log);
    ChronologyOfHistory(txs);
    LatestStored(txs, txs);
    HashesServed(s, all, limit);
    var page := (o: nat) => TxsPage(s, limit, o);
    assert Serves(page, all, limit) by {
      var other := (o: nat) => HashesPage(s, Hashes(all), limit, o);
      assert forall o: nat :: page(o) == other(o);
    }
    PagesComplete(page, all, limit, n);
  }

  /** After any insertions the block pages put together are the blocks by descending height:
      for every height that was inserted, the block inserted last. */
  lemma BlockPagesComplete(log: seq<Entry>, limit: nat, n: nat)
    requires limit >= 1
    ensures var s := Indexed(log);
      var page := (o: nat) => BlocksPage(s, limit, o);
      var all := Together(page, limit, n);
      && (n * limit >= |s.blocks| ==>
            Descending(all) && forall b: IndexedBlock :: b in all <==> LastOfHeight(BlocksIn(log), b))
      && (forall o: nat :: page(o).hasMore <==> o + limit < |s.blocks|)
      && (forall o: nat :: page(o).total == |s.blocks| && page(o).limit == limit && page(o).offset == o)
  {
    var s := Indexed(log);
    var page := (o: nat) => BlocksPage(s, limit, o);
    Interleaved(log);
    BlocksOfHistory(BlocksIn(log));
    ReversedBlocks(s.blocks);
    BlocksServed(s, limit);
    PagesComplete(page, s.blocks, limit, n);
  }

  /** The list of a height holds the transactions of that height in order of insertion. */
  lemma HeightListComplete(log: seq<Entry>, h: nat)
    ensures Listed(Indexed(log).hashesByHeight, h) == Hashes(AtHeight(TxsIn(log), h))
  {
    Interleaved(log);
    HeightListOfHistory(TxsIn(log), h);
  }

  /** The block inserted last under a hash. */
  function LastBlock(log: seq<IndexedBlock>, x: Hash32): Option<IndexedBlock> {
    if log == [] then None
    else if log[|log| - 1].hash == x then Some(log[|log| - 1])
    else LastBlock(log[..|log| - 1], x)
  }

  lemma {:induction false} HeightsOfHistory(log: seq<IndexedBlock>, x: Hash32)
    ensures var m := AfterBlocks(EMPTY_INDEX, log).heightByHash;
      && (x in m <==> LastBlock(log, x).Some?)
      && (x in m ==> m[x] == LastBlock(log, x).value.height)
  {
    if log != [] { HeightsOfHistory(log[..|log| - 1], x); }
  }

  /** A block hash leads to the height of the block inserted last under it, and to none if there was
      no such block. */
  lemma HeightByHashComplete(log: seq<Entry>, x: Hash32)
    ensures var m := Indexed(log).heightByHash;
      && (x in m <==> LastBlock(BlocksIn(log), x).Some?)
      && (x in m ==> m[x] == LastBlock(BlocksIn(log), x).value.height)
  {
    Interleaved(log);
    HeightsOfHistory(BlocksIn(log), x);
  }
}
