/** The driver's view of the ledger as a list of block hashes is that of the ledger itself: mining,
    applying and finalizing do to the hashes of the blocks what the driver assumes. */
module DriverLedger {
  import opened Basics
  import opened ChainTypes
  import opened Ledger
  import opened Driver

  function HashesOf(k: Crypto, blocks: seq<Block>): (r: seq<Hash32>)
    ensures |r| == |blocks| && forall i :: 0 <= i < |r| ==> r[i] == k.blockHash(blocks[i].header)
  {
    seq<Hash32>(|blocks|, i requires 0 <= i < |blocks| => k.blockHash(blocks[i].header))
  }

  /** Block `b` announced for attempt (h, r) to a node with ledger `s`. */
  function ProposalOf(k: Crypto, s: LedgerState, h: nat, r: nat, b: Block): Proposal {
    Proposal(h, r, k.blockHash(b.header), b.header.height, b.header.proposer, b.header.parentHash,
             b.header.chainId == s.genesis.chainId && RootsMatch(k, AppliedBatch(k, s, b), b.header))
  }

  /** `apply_block` accepts or skips exactly the proposals that the driver expects it to, and leaves
      the list of hashes that the driver expects, for every ledger and every block. */
  lemma ApplyIsApplyProposal(k: Crypto, s: LedgerState, h: nat, r: nat, b: Block)
    requires s.blocks != []
    ensures var (t, res) := Apply(k, s, b);
      var o := ApplyProposal(HashesOf(k, s.blocks), ProposalOf(k, s, h, r, b));
      && (o.Some? <==> res.Skipped? || res.Applied?)
      && HashesOf(k, t.blocks) == if o.Some? then o.value else HashesOf(k, s.blocks)
  {
    var (t, res) := Apply(k, s, b);
    if res.Applied? { assert t.blocks == s.blocks + [b]; }
  }

  /** Mining appends the hash of a block that carries the next height, this proposer and the hash
      of the old tip. */
  lemma MineAppends(k: Crypto, s: LedgerState, p: Address)
    requires s.blocks != []
    ensures var (t, b) := Mine(k, s, p);
      && HashesOf(k, t.blocks) == HashesOf(k, s.blocks) + [k.blockHash(b.header)]
      && b.header.height == |s.blocks| && b.header.proposer == p
      && b.header.parentHash == HashesOf(k, s.blocks)[|s.blocks| - 1]
  {
    assert Mine(k, s, p).0.blocks == s.blocks + [Mine(k, s, p).1];
  }

  /** `set_last_commit` changes no hash. It writes the signatures onto the block at `h`, whatever
      its hash, exactly when there is one. */
  lemma CommitStampsAnyBlock(k: Crypto, s: LedgerState, h: nat, sigs: seq<CommitSignature>)
    ensures var t := SetLastCommit(k, s, h, sigs);
      && HashesOf(k, t.blocks) == HashesOf(k, s.blocks)
      && (h < |s.blocks| ==> t.blocks[h].lastCommit == sigs)
      && forall i :: 0 <= i < |s.blocks| && i != h ==> t.blocks[i] == s.blocks[i]
  {
  }
}
