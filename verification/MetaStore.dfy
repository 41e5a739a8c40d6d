/** The flat, byte-keyed metadata store: four families of keys in one map behave as four
    separate tables. */
module MetaStore {
  import opened Basics
  import opened Encoding

  type U64 = n: nat | n < TWO_64

  const HEIGHT_KEY: Bytes := [109, 101, 116, 97, 58, 104, 101, 105, 103, 104, 116]
  const BLOCK_PREFIX: Bytes := [98, 108, 107, 58]
  const BLOCK_HASH_PREFIX: Bytes := [98, 108, 107, 104, 97, 115, 104, 58]
  const TX_PREFIX: Bytes := [116, 120, 58]

  /** A row of one of the four tables. */
  datatype Row = HeightRow | BlockRow(h: U64) | HashRow(hash: Hash32) | TxRow(hash: Hash32)

  function Key(r: Row): Bytes {
    match r
    case HeightRow => HEIGHT_KEY
    case BlockRow(h) => BLOCK_PREFIX + BigEndian(h, 8)
    case HashRow(x) => BLOCK_HASH_PREFIX + DigestBytes(x)
    case TxRow(x) => TX_PREFIX + DigestBytes(x)
  }

  /** The four families of keys never collide, neither with each other nor within one. */
  lemma KeyInjective(r: Row, s: Row)
    requires Key(r) == Key(s)
    ensures r == s
  {
    match r
    case HeightRow =>
    case BlockRow(h) =>
      assert Key(r)[4..] == BigEndian(h, 8) && Key(s)[4..] == BigEndian(s.h, 8);
      WordSizes();
      BigEndianRoundTrip(h, 8);
      BigEndianRoundTrip(s.h, 8);
    case HashRow(x) =>
      assert Key(r)[8..] == DigestBytes(x) && Key(s)[8..] == DigestBytes(s.hash);
      DigestBytesInjective(x, s.hash);
    case TxRow(x) =>
      assert Key(r)[3..] == DigestBytes(x) && Key(s)[3..] == DigestBytes(s.hash);
      DigestBytesInjective(x, s.hash);
  }

  lemma WordRoundTrip(n: U64)
    ensures FromBigEndian(BigEndian(n, 8)) == n
  {
    WordSizes();
    BigEndianRoundTrip(n, 8);
  }

  /** What the store means: a recorded height and three tables. */
  datatype Tables = Tables(
    height: Option<U64>, blocks: map<U64, Bytes>, heights: map<Hash32, U64>, txs: map<Hash32, Bytes>)

  /** The value a table row has, in bytes. */
  function Value(t: Tables, r: Row): Option<Bytes> {
    match r
    case HeightRow => if t.height.Some? then Some(BigEndian(t.height.value, 8)) else None
    case BlockRow(h) => if h in t.blocks then Some(t.blocks[h]) else None
    case HashRow(x) => if x in t.heights then Some(BigEndian(t.heights[x], 8)) else None
    case TxRow(x) => if x in t.txs then Some(t.txs[x]) else None
  }

  function Lookup(m: map<Bytes, Bytes>, key: Bytes): Option<Bytes> {
    if key in m then Some(m[key]) else None
  }

  ghost predicate Represents(m: map<Bytes, Bytes>, t: Tables) {
    forall r: Row :: Lookup(m, Key(r)) == Value(t, r)
  }

  /** A put changes the row it is meant for and no other. */
  lemma PutRow(m: map<Bytes, Bytes>, t: Tables, r: Row, v: Bytes, u: Tables)
    requires Represents(m, t) && Value(u, r) == Some(v)
    requires forall s: Row :: s != r ==> Value(u, s) == Value(t, s)
    ensures Represents(m[Key(r) := v], u)
  {
    forall s: Row ensures Lookup(m[Key(r) := v], Key(s)) == Value(u, s) {
      assert Lookup(m, Key(s)) == Value(t, s);
      if Key(s) == Key(r) { KeyInjective(s, r); }
    }
  }

  /** `MemKVStore` as `ChainMetaStore`. */
  class MemKVStore {
    var meta: map<Bytes, Bytes>
    ghost var tables: Tables

    ghost predicate Valid()
      reads this
    {
      Represents(meta, tables)
    }

    constructor ()
      ensures Valid() && tables == Tables(None, map[], map[], map[])
    {
      meta, tables := map[], Tables(None, map[], map[], map[]);
    }

    method PutHeight(h: U64)
      requires Valid()
      modifies this
      ensures Valid() && tables == old(tables).(height := Some(h))
    {
      var v := BigEndian(h, 8);
      PutRow(meta, tables, HeightRow, v, tables.(height := Some(h)));
      meta, tables := meta[HEIGHT_KEY := v], tables.(height := Some(h));
    }

    method GetHeight() returns (r: Option<U64>)
      requires Valid()
      ensures r == tables.height
    {
      assert Lookup(meta, Key(HeightRow)) == Value(tables, HeightRow);
      if HEIGHT_KEY !in meta { return None; }
      WordRoundTrip(tables.height.value);
      r := Some(FromBigEndian(meta[HEIGHT_KEY]));
    }

    method PutBlock(h: U64, bytes: Bytes)
      requires Valid()
      modifies this
      ensures Valid() && tables == old(tables).(blocks := old(tables).blocks[h := bytes])
    {
      PutRow(meta, tables, BlockRow(h), bytes, tables.(blocks := tables.blocks[h := bytes]));
      meta, tables := meta[BLOCK_PREFIX + BigEndian(h, 8) := bytes], tables.(blocks := tables.blocks[h := bytes]);
    }

    method GetBlock(h: U64) returns (r: Option<Bytes>)
      requires Valid()
      ensures r == if h in tables.blocks then Some(tables.blocks[h]) else None
    {
      assert Lookup(meta, Key(BlockRow(h))) == Value(tables, BlockRow(h));
      r := Lookup(meta, BLOCK_PREFIX + BigEndian(h, 8));
    }

    method PutBlockHashIndex(x: Hash32, h: U64)
      requires Valid()
      modifies this
      ensures Valid() && tables == old(tables).(heights := old(tables).heights[x := h])
    {
      var v := BigEndian(h, 8);
      PutRow(meta, tables, HashRow(x), v, tables.(heights := tables.heights[x := h]));
      meta, tables := meta[BLOCK_HASH_PREFIX + DigestBytes(x) := v], tables.(heights := tables.heights[x := h]);
    }

    method GetHeightByHash(x: Hash32) returns (r: Option<U64>)
      requires Valid()
      ensures r == if x in tables.heights then Some(tables.heights[x]) else None
    {
      assert Lookup(meta, Key(HashRow(x))) == Value(tables, HashRow(x));
      var key := BLOCK_HASH_PREFIX + DigestBytes(x);
      if key !in meta { return None; }
      WordRoundTrip(tables.heights[x]);
      r := Some(FromBigEndian(meta[key]));
    }

    method PutTxIndex(x: Hash32, bytes: Bytes)
      requires Valid()
      modifies this
      ensures Valid() && tables == old(tables).(txs := old(tables).txs[x := bytes])
    {
      PutRow(meta, tables, TxRow(x), bytes, tables.(txs := tables.txs[x := bytes]));
      meta, tables := meta[TX_PREFIX + DigestBytes(x) := bytes], tables.(txs := tables.txs[x := bytes]);
    }

    method GetTxIndex(x: Hash32) returns (r: Option<Bytes>)
      requires Valid()
      ensures r == if x in tables.txs then Some(tables.txs[x]) else None
    {
      assert Lookup(meta, Key(TxRow(x))) == Value(tables, TxRow(x));
      r := Lookup(meta, TX_PREFIX + DigestBytes(x));
    }
  }
}
