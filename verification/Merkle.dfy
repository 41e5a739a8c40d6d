/** The binary Merkle root over a list of digests. */
module Merkle {
  import opened Basics
  import opened Encoding

  /** The hash function, BLAKE3 in the source. */
  type Hash = Bytes -> Hash32

  function Preimage(left: Hash32, right: Hash32): Bytes {
    DigestBytes(left) + DigestBytes(right)
  }

  function Parent(hash: Hash, left: Hash32, right: Hash32): Hash32 {
    hash(Preimage(left, right))
  }

  lemma PreimageInjective(a: Hash32, b: Hash32, c: Hash32, d: Hash32)
    requires Preimage(a, b) == Preimage(c, d)
    ensures a == c && b == d
  {
    assert Preimage(a, b)[..32] == DigestBytes(a) && Preimage(c, d)[..32] == DigestBytes(c);
    assert Preimage(a, b)[32..] == DigestBytes(b) && Preimage(c, d)[32..] == DigestBytes(d);
    DigestBytesInjective(a, c);
    DigestBytesInjective(b, d);
  }

  // ---------------------------------------------------------------------------------
  // The tree, node by node

  /** Number of nodes at a level above `n` leaves. */
  function Width(n: nat, level: nat): nat {
    if level == 0 then n else (Width(n, level - 1) + 1) / 2
  }

  /** Number of levels above `n` leaves. */
  function Depth(n: nat): nat {
    if n <= 1 then 0 else 1 + Depth((n + 1) / 2)
  }

  /** Node `i` at a level: a leaf, or the parent of nodes `2i` and `2i+1` of the level below,
      where a missing right child repeats the left one. */
  function Node(hash: Hash, leaves: seq<Hash32>, level: nat, i: nat): Hash32
    requires i < Width(|leaves|, level)
  {
    if level == 0 then leaves[i]
    else
      var right := if 2 * i + 1 < Width(|leaves|, level - 1) then 2 * i + 1 else 2 * i;
      Parent(hash, Node(hash, leaves, level - 1, 2 * i), Node(hash, leaves, level - 1, right))
  }

  lemma {:induction false} WidthShift(n: nat, level: nat)
    ensures Width((n + 1) / 2, level) == Width(n, level + 1)
  {
    if level > 0 { WidthShift(n, level - 1); }
  }

  lemma {:induction false} TopIsSingle(n: nat)
    requires n > 0
    ensures Width(n, Depth(n)) == 1
  {
    if n > 1 {
      TopIsSingle((n + 1) / 2);
      WidthShift(n, Depth((n + 1) / 2));
    }
  }

  /** The root of the tree; the empty list has the zero root. */
  function TreeRoot(hash: Hash, leaves: seq<Hash32>): Hash32 {
    if leaves == [] then ZERO_HASH
    else TopIsSingle(|leaves|); Node(hash, leaves, Depth(|leaves|), 0)
  }

  /** All nodes of a level. */
  function Level(hash: Hash, leaves: seq<Hash32>, level: nat): (r: seq<Hash32>)
    ensures |r| == Width(|leaves|, level)
  {
    seq(Width(|leaves|, level), i requires 0 <= i < Width(|leaves|, level) => Node(hash, leaves, level, i))
  }

  // ---------------------------------------------------------------------------------
  // The level-by-level loop

  method MerkleRoot(hash: Hash, hashes: seq<Hash32>) returns (root: Hash32)
    ensures root == TreeRoot(hash, hashes)
  {
    if hashes == [] { return ZERO_HASH; }
    if |hashes| == 1 { return hashes[0]; }
    var current := hashes;
    ghost var level := 0;
    assert current == Level(hash, hashes, 0);
    while |current| > 1
      invariant |current| > 0 && current == Level(hash, hashes, level)
      invariant Depth(|hashes|) == level + Depth(|current|)
    {
      var next: seq<Hash32> := [];
      var i := 0;
      while i < |current|
        invariant i == 2 * |next| || (i == |current| + 1 == 2 * |next|)
        invariant |next| <= Width(|hashes|, level + 1)
        invariant forall j :: 0 <= j < |next| ==> next[j] == Node(hash, hashes, level + 1, j)
        decreases |current| + 1 - i
      {
        if i + 1 < |current| {
          next := next + [Parent(hash, current[i], current[i + 1])];
        } else {
          next := next + [Parent(hash, current[i], current[i])];
        }
        i := i + 2;
      }
      assert next == Level(hash, hashes, level + 1);
      current := next;
      level := level + 1;
    }
    root := current[0];
  }

  // ---------------------------------------------------------------------------------
  // The tree, bottom up

  /** The level above a list: the hash of the 32 bytes of element `2i` followed by those of element
      `2i+1`, or of element `2i` twice at an odd end. */
  function Halved(hash: Hash, s: seq<Hash32>): (r: seq<Hash32>)
    ensures |r| == (|s| + 1) / 2
  {
    seq<Hash32>((|s| + 1) / 2, i requires 0 <= i < (|s| + 1) / 2 =>
      hash(BigEndian(s[2 * i], 32) + BigEndian(if 2 * i + 1 < |s| then s[2 * i + 1] else s[2 * i], 32)))
  }

  lemma {:induction false} NodeOfHalved(hash: Hash, s: seq<Hash32>, level: nat, i: nat)
    requires i < Width(|s|, level + 1)
    ensures i < Width((|s| + 1) / 2, level)
    ensures Node(hash, s, level + 1, i) == Node(hash, Halved(hash, s), level, i)
    decreases level
  {
    WidthShift(|s|, level);
    if level > 0 {
      WidthShift(|s|, level - 1);
      NodeOfHalved(hash, s, level - 1, 2 * i);
      if 2 * i + 1 < Width(|s|, level) { NodeOfHalved(hash, s, level - 1, 2 * i + 1); }
    }
  }

  /** The root in terms of bytes: zero for the empty list, the digest itself for one, the hash of
      the left 32 bytes followed by the right 32 for two, and in general the root of the level
      above. */
  lemma RootExactly(hash: Hash, s: seq<Hash32>, x: Hash32, y: Hash32)
    ensures TreeRoot(hash, []) == ZERO_HASH
    ensures TreeRoot(hash, [x]) == x
    ensures TreeRoot(hash, [x, y]) == hash(BigEndian(x, 32) + BigEndian(y, 32))
    ensures |s| > 1 ==> TreeRoot(hash, s) == TreeRoot(hash, Halved(hash, s))
  {
    TwoLeaves(hash, x, y);
    if |s| > 1 {
      TopIsSingle(|s|);
      TopIsSingle((|s| + 1) / 2);
      NodeOfHalved(hash, s, Depth((|s| + 1) / 2), 0);
    }
  }

  lemma TwoLeaves(hash: Hash, x: Hash32, y: Hash32)
    ensures TreeRoot(hash, [x, y]) == hash(BigEndian(x, 32) + BigEndian(y, 32))
  {
    assert Depth(2) == 1 && Width(2, 0) == 2;
    TopIsSingle(2);
    assert Node(hash, [x, y], 0, 0) == x && Node(hash, [x, y], 0, 1) == y;
  }

  // ---------------------------------------------------------------------------------
  // Binding

  /** Two levels with equal parents are equal, or their nodes show a collision. */
  lemma LevelBelow(hash: Hash, s: seq<Hash32>, t: seq<Hash32>, level: nat) returns (x: Bytes, y: Bytes)
    requires |s| == |t| && Level(hash, s, level + 1) == Level(hash, t, level + 1)
    ensures Level(hash, s, level) == Level(hash, t, level) || (x != y && hash(x) == hash(y))
  {
    x, y := [], [];
    if Level(hash, s, level) != Level(hash, t, level) {
      var j :| 0 <= j < Width(|s|, level) && Level(hash, s, level)[j] != Level(hash, t, level)[j];
      var i := j / 2;
      var r := if 2 * i + 1 < Width(|s|, level) then 2 * i + 1 else 2 * i;
      var a, b := Node(hash, s, level, 2 * i), Node(hash, s, level, r);
      var c, d := Node(hash, t, level, 2 * i), Node(hash, t, level, r);
      assert Level(hash, s, level + 1)[i] == Parent(hash, a, b);
      assert Level(hash, t, level + 1)[i] == Parent(hash, c, d);
      x, y := Preimage(a, b), Preimage(c, d);
      if x == y { PreimageInjective(a, b, c, d); }
    }
  }

  lemma {:induction false} LevelsBelow(hash: Hash, s: seq<Hash32>, t: seq<Hash32>, level: nat)
      returns (x: Bytes, y: Bytes)
    requires |s| == |t| && Level(hash, s, level) == Level(hash, t, level)
    ensures s == t || (x != y && hash(x) == hash(y))
  {
    x, y := [], [];
    if level == 0 {
      assert s == Level(hash, s, 0) && t == Level(hash, t, 0);
    } else {
      x, y := LevelBelow(hash, s, t, level - 1);
      if Level(hash, s, level - 1) == Level(hash, t, level - 1) {
        x, y := LevelsBelow(hash, s, t, level - 1);
      }
    }
  }

  /** Binding: two lists of the same length with the same root are equal, or the trees
      contain an explicit collision of the hash function. */
  lemma RootBindsList(hash: Hash, s: seq<Hash32>, t: seq<Hash32>) returns (x: Bytes, y: Bytes)
    requires |s| == |t| && TreeRoot(hash, s) == TreeRoot(hash, t)
    ensures s == t || (x != y && hash(x) == hash(y))
  {
    if s == [] {
      x, y := [], [];
    } else {
      TopIsSingle(|s|);
      assert Level(hash, s, Depth(|s|)) == [TreeRoot(hash, s)];
      assert Level(hash, t, Depth(|t|)) == [TreeRoot(hash, t)];
      x, y := LevelsBelow(hash, s, t, Depth(|s|));
    }
  }

  // ---------------------------------------------------------------------------------
  // Lists of different lengths

  /** The node `level` steps above equal leaves. */
  function Tower(hash: Hash, leaf: Hash32, level: nat): Hash32 {
    if level == 0 then leaf
    else Parent(hash, Tower(hash, leaf, level - 1), Tower(hash, leaf, level - 1))
  }

  function Copies(leaf: Hash32, n: nat): (r: seq<Hash32>)
    ensures |r| == n
  {
    seq(n, _ => leaf)
  }

  lemma {:induction false} NodeOfCopies(hash: Hash, leaf: Hash32, n: nat, level: nat, i: nat)
    requires i < Width(n, level)
    ensures Node(hash, Copies(leaf, n), level, i) == Tower(hash, leaf, level)
  {
    if level > 0 {
      var right := if 2 * i + 1 < Width(n, level - 1) then 2 * i + 1 else 2 * i;
      NodeOfCopies(hash, leaf, n, level - 1, 2 * i);
      NodeOfCopies(hash, leaf, n, level - 1, right);
    }
  }

  lemma {:induction false} TowerAdd(hash: Hash, leaf: Hash32, a: nat, b: nat)
    ensures Tower(hash, Tower(hash, leaf, a), b) == Tower(hash, leaf, a + b)
  {
    if b > 0 { TowerAdd(hash, leaf, a, b - 1); }
  }

  lemma RootOfCopies(hash: Hash, leaf: Hash32, n: nat)
    requires n > 0
    ensures TreeRoot(hash, Copies(leaf, n)) == Tower(hash, leaf, Depth(n))
  {
    TopIsSingle(n);
    NodeOfCopies(hash, leaf, n, Depth(n), 0);
  }

  /** The length is essential: for any two different positive lengths and whatever the hash
      function, there are lists of these lengths with the same root. */
  lemma LengthsClash(hash: Hash, n: nat, m: nat, leaf: Hash32) returns (s: seq<Hash32>, t: seq<Hash32>)
    requires n > 0 && m > 0
    ensures |s| == n && |t| == m && TreeRoot(hash, s) == TreeRoot(hash, t)
    ensures leaf in s || leaf in t
    decreases Depth(n) < Depth(m)
  {
    if Depth(n) >= Depth(m) {
      s, t := Copies(leaf, n), Copies(Tower(hash, leaf, Depth(n) - Depth(m)), m);
      TowerAdd(hash, leaf, Depth(n) - Depth(m), Depth(m));
      RootOfCopies(hash, leaf, n);
      RootOfCopies(hash, Tower(hash, leaf, Depth(n) - Depth(m)), m);
      assert s[0] == leaf;
    } else {
      t, s := LengthsClash(hash, m, n, leaf);
    }
  }

  lemma {:induction false} DuplicateNode(hash: Hash, s: seq<Hash32>, level: nat, i: nat)
    requires |s| % 2 == 1 && level > 0 && i < Width(|s|, level)
    ensures Width(|s| + 1, level) == Width(|s|, level)
    ensures Node(hash, s + [s[|s| - 1]], level, i) == Node(hash, s, level, i)
  {
    if level > 1 {
      var right := if 2 * i + 1 < Width(|s|, level - 1) then 2 * i + 1 else 2 * i;
      DuplicateNode(hash, s, level - 1, 2 * i);
      DuplicateNode(hash, s, level - 1, right);
    }
  }

  /** Repeating the last digest of a list of odd length above one keeps the root. */
  lemma RepeatedLastSameRoot(hash: Hash, s: seq<Hash32>)
    requires |s| > 1 && |s| % 2 == 1
    ensures TreeRoot(hash, s + [s[|s| - 1]]) == TreeRoot(hash, s)
  {
    TopIsSingle(|s|);
    DuplicateNode(hash, s, Depth(|s|), 0);
  }
}
