/** When a crash is harmless for the accounts. Account writes of a block come before its height is
    recorded, so a crash in between brings back the old chain with newer accounts. */
module Crashes {
  import opened Basics
  import opened ChainTypes
  import opened Executor
  import opened Ledger
  import opened LedgerRuns
  import opened Replication
  import opened ChainRuns

  // ---------------------------------------------------------------------------------
  // Account writes behind the last recorded height

  /** Some account was written after the last height was recorded. */
  predicate Dangling(ws: seq<Write>) {
    ws != [] &&
      var w := ws[|ws| - 1];
      !w.PutHeight? && (w.PutAccount? || Dangling(ws[..|ws| - 1]))
  }

  predicate NoHeight(ws: seq<Write>) {
    forall w <- ws :: !w.PutHeight?
  }

  predicate HasAccount(ws: seq<Write>) {
    exists i :: 0 <= i < |ws| && ws[i].PutAccount?
  }

  lemma {:induction false} DanglingMore(journal: seq<Write>, part: seq<Write>)
    requires NoHeight(part)
    ensures Dangling(journal + part) <==> Dangling(journal) || HasAccount(part)
  {
    if part == [] {
      assert journal + part == journal;
    } else {
      var front, w := part[..|part| - 1], part[|part| - 1];
      assert w in part;
      DanglingMore(journal, front);
      assert (journal + part)[..|journal + part| - 1] == journal + front;
      HasAccountMore(front, w);
      assert part == front + [w];
    }
  }

  lemma HasAccountMore(ws: seq<Write>, w: Write)
    ensures HasAccount(ws + [w]) <==> HasAccount(ws) || w.PutAccount?
  {
    if HasAccount(ws) {
      var i :| 0 <= i < |ws| && ws[i].PutAccount?;
      assert (ws + [w])[i].PutAccount?;
    }
    if w.PutAccount? { assert (ws + [w])[|ws|].PutAccount?; }
    if HasAccount(ws + [w]) && !w.PutAccount? {
      var i :| 0 <= i < |ws + [w]| && (ws + [w])[i].PutAccount?;
      assert ws[i].PutAccount?;
    }
  }

  lemma RecordedNotDangling(k: Crypto, journal: seq<Write>, b: Block)
    ensures !Dangling(journal + CommitWrites(k, b))
  {
    var ws := journal + CommitWrites(k, b);
    assert ws[|ws| - 1] == PutHeight(b.header.height);
  }

  /** After a clean run everything is recorded. */
  lemma {:induction false} CleanNotDangling(k: Crypto, g: Genesis, ops: seq<Op>)
    requires Clean(k, g, ops)
    ensures !Dangling(Run(k, g, ops).journal)
  {
    if ops == [] {
      RecordedNotDangling(k, GenesisWrites(g.accounts), GenesisBlock(k, g));
    } else {
      var s, op := Run(k, g, ops[..|ops| - 1]), ops[|ops| - 1];
      CleanNotDangling(k, g, ops[..|ops| - 1]);
      match op
      case SubmitOp(tx) =>
      case MineOp(p) => RecordedNotDangling(k, s.journal + MinedBatch(k, s).writes, MinedBlock(k, s, p));
      case ApplyOp(b) => RecordedNotDangling(k, s.journal + AppliedBatch(k, s, b).writes, b);
      case CommitOp(h, sigs) =>
        if h < |s.blocks| {
          var b := s.blocks[h].(lastCommit := sigs);
          DanglingMore(s.journal, [PutBlock(h, b), PutBlockHash(k.blockHash(b.header), h)]);
        }
    }
  }

  // ---------------------------------------------------------------------------------
  // Writes of a block only raise nonces

  predicate NonceStep(m: Accounts, w: Write) {
    w.PutAccount? ==> w.account.nonce >= Get(m, w.a).nonce
  }

  /** No write of the list lowers a nonce. */
  predicate Climbing(m: Accounts, ws: seq<Write>) {
    ws != [] ==> Climbing(m, ws[..|ws| - 1]) && NonceStep(AccountsAfter(m, ws[..|ws| - 1]), ws[|ws| - 1])
  }

  lemma ClimbOne(m: Accounts, ws: seq<Write>, w: Write)
    requires Climbing(m, ws) && NonceStep(AccountsAfter(m, ws), w)
    ensures Climbing(m, ws + [w])
  {
    assert (ws + [w])[..|ws|] == ws;
  }

  lemma {:induction false} ClimbConcat(m: Accounts, vs: seq<Write>, ws: seq<Write>)
    requires Climbing(m, vs) && Climbing(AccountsAfter(m, vs), ws)
    ensures Climbing(m, vs + ws)
  {
    if ws == [] {
      assert vs + ws == vs;
    } else {
      var front, w := ws[..|ws| - 1], ws[|ws| - 1];
      ClimbConcat(m, vs, front);
      AccountsConcat(m, vs, front);
      ClimbOne(m, vs + front, w);
      assert vs + ws == vs + front + [w];
    }
  }

  lemma {:induction false} ClimbGrows(m: Accounts, ws: seq<Write>, i: nat, j: nat)
    requires Climbing(m, ws) && i <= j <= |ws|
    ensures NoncesGrow(AccountsAfter(m, ws[..i]), AccountsAfter(m, ws[..j]))
    decreases |ws|, j
  {
    if j < |ws| {
      assert ws[..|ws| - 1][..i] == ws[..i] && ws[..|ws| - 1][..j] == ws[..j];
      ClimbGrows(m, ws[..|ws| - 1], i, j);
    } else if i < j {
      ClimbGrows(m, ws, i, j - 1);
      assert ws[..j] == ws && ws[..j - 1] == ws[..|ws| - 1];
    }
  }

  lemma {:induction false} CreditsClimb(m: Accounts, c: Credits, ms: seq<TxMessage>)
    requires AccountsAfter(m, c.writes) == c.accounts && Climbing(m, c.writes)
    ensures Climbing(m, CreditAll(c, ms).writes)
  {
    if ms != [] {
      var d, x := CreditAll(c, ms[..|ms| - 1]), ms[|ms| - 1];
      CreditsClimb(m, c, ms[..|ms| - 1]);
      CreditWrites(m, c, ms[..|ms| - 1]);
      CreditClimbs(m, d, x);
    }
  }

  lemma CreditClimbs(m: Accounts, d: Credits, x: TxMessage)
    requires AccountsAfter(m, d.writes) == d.accounts && Climbing(m, d.writes)
    ensures Climbing(m, Credit(d, x).writes)
  {
    if Credit(d, x).writes != d.writes {
      var r := Get(d.accounts, x.to);
      ClimbOne(m, d.writes, PutAccount(x.to, r.(balance := r.balance + x.amount)));
    }
  }

  lemma ExecuteClimbs(k: Crypto, m: Accounts, tx: Transaction, height: nat, chainId: string)
    ensures Climbing(m, Execute(k, m, tx, height, chainId).writes)
  {
    if Refusal(k, m, tx, chainId).None? {
      var d := Debited(m, tx);
      var w := PutAccount(tx.sender, d);
      ClimbOne(m, [], w);
      AccountsOneMore(m, [], w);
      assert [] + [w] == [w];
      CreditsClimb(m, Credits(m[tx.sender := d], [w], true), tx.messages);
    }
  }

  lemma TxWritesClimb(k: Crypto, m: Accounts, tx: Transaction, height: nat, chainId: string)
    ensures Climbing(m, TxWrites(Execute(k, m, tx, height, chainId), tx, height))
  {
    var r := Execute(k, m, tx, height, chainId);
    ExecuteClimbs(k, m, tx, height, chainId);
    if r.outcome.Executed? {
      ClimbOne(m, r.writes, PutTx(r.outcome.receipt.txHash, TxEntry(tx, r.outcome.receipt, height)));
    }
  }

  /** The first write is a debit, which raises the sender's nonce. */
  predicate StartsWithDebit(m: Accounts, ws: seq<Write>) {
    ws != [] ==> ws[0].PutAccount? && ws[0].account.nonce == NextNonce(Get(m, ws[0].a).nonce)
  }

  lemma {:induction false} CreditsExtend(c: Credits, ms: seq<TxMessage>)
    ensures c.writes <= CreditAll(c, ms).writes
  {
    if ms != [] { CreditsExtend(c, ms[..|ms| - 1]); }
  }

  lemma TxStarts(k: Crypto, m: Accounts, tx: Transaction, height: nat, chainId: string)
    ensures StartsWithDebit(m, TxWrites(Execute(k, m, tx, height, chainId), tx, height))
  {
    if Refusal(k, m, tx, chainId).None? {
      var d := Debited(m, tx);
      CreditsExtend(Credits(m[tx.sender := d], [PutAccount(tx.sender, d)], true), tx.messages);
    }
  }

  /** The writes of a batch so far, from accounts `m`. */
  predicate Rises(m: Accounts, b: Batch) {
    AccountsAfter(m, b.writes) == b.accounts && Climbing(m, b.writes) && StartsWithDebit(m, b.writes)
  }

  lemma TakeRises(k: Crypto, chainId: string, height: nat, m: Accounts, b: Batch, tx: Transaction)
    requires Rises(m, b)
    ensures Rises(m, Take(k, chainId, height, b, tx))
  {
    var ws := TxWrites(Execute(k, b.accounts, tx, height, chainId), tx, height);
    TakeAccounts(k, chainId, height, m, b, tx);
    TxWritesClimb(k, b.accounts, tx, height, chainId);
    ClimbConcat(m, b.writes, ws);
    TxStarts(k, b.accounts, tx, height, chainId);
    assert b.writes == [] ==> b.writes + ws == ws;
  }

  lemma {:induction false} BatchRises(k: Crypto, chainId: string, height: nat, m: Accounts, txs: seq<Transaction>)
    ensures Rises(m, MineAll(k, chainId, height, m, txs)) && Rises(m, ApplyAll(k, chainId, height, m, txs))
  {
    if txs != [] {
      var front, tx := txs[..|txs| - 1], txs[|txs| - 1];
      BatchRises(k, chainId, height, m, front);
      TakeRises(k, chainId, height, m, MineAll(k, chainId, height, m, front), tx);
      TakeRises(k, chainId, height, m, ApplyAll(k, chainId, height, m, front), tx);
    }
  }

  /** No account has used up its nonces. */
  ghost predicate NoncesLeft(m: Accounts) {
    forall a: Address :: Get(m, a).nonce < U64_MAX
  }

  /** Any part of the writes of a batch, unless empty, changes the accounts. */
  lemma PartChanges(m: Accounts, ws: seq<Write>, i: nat)
    requires Climbing(m, ws) && StartsWithDebit(m, ws) && NoncesLeft(m) && 0 < i <= |ws|
    ensures AccountsAfter(m, ws[..i]) != m
  {
    var a := ws[0].a;
    ClimbGrows(m, ws, 1, i);
    AccountsOneMore(m, [], ws[0]);
    assert ws[..1] == [] + [ws[0]];
    assert Get(AccountsAfter(m, ws[..1]), a).nonce > Get(m, a).nonce;
  }

  /** What a crash can leave of the writes of a block without its height. */
  lemma PartOfBlock(k: Crypto, m: Accounts, ws: seq<Write>, b: Block, j: nat)
    requires Climbing(m, ws) && StartsWithDebit(m, ws) && NoncesLeft(m) && j <= |ws| + 3
    ensures var part := (ws + CommitWrites(k, b))[..j];
      HasAccount(part) <==> AccountsAfter(m, part) != m
  {
    var all := ws + CommitWrites(k, b);
    var part := all[..j];
    if ws == [] {
      assert forall i :: 0 <= i < |part| ==> part[i] == CommitWrites(k, b)[i];
      assert forall w <- part :: !w.PutAccount?;
      AccountsIgnore(m, part);
    } else if j > 0 {
      assert part[0] == ws[0] && part[0].PutAccount?;
      PartAccounts(k, m, ws, b, j);
      PartChanges(m, ws, if j <= |ws| then j else |ws|);
    }
  }

  lemma PartAccounts(k: Crypto, m: Accounts, ws: seq<Write>, b: Block, j: nat)
    requires j <= |ws| + 3
    ensures AccountsAfter(m, (ws + CommitWrites(k, b))[..j]) == AccountsAfter(m, ws[..if j <= |ws| then j else |ws|])
  {
    var all := ws + CommitWrites(k, b);
    if j <= |ws| {
      assert all[..j] == ws[..j];
    } else {
      var tail := CommitWrites(k, b)[..j - |ws|];
      assert all[..j] == ws + tail && ws[..|ws|] == ws;
      AccountsConcat(m, ws, tail);
      assert forall i :: 0 <= i < |tail| ==> tail[i] == CommitWrites(k, b)[i];
      AccountsIgnore(AccountsAfter(m, ws), tail);
    }
  }

  // ---------------------------------------------------------------------------------
  // The exact condition

  /** The accounts of a reopened ledger are those its chain leads to. */
  predicate Sane(k: Crypto, t: LedgerState) {
    AccountsOf(t) == AccountsAt(k, t.genesis, t.blocks)
  }

  /** A cut between two operations. */
  lemma WholeIsSane(k: Crypto, s: LedgerState)
    requires Durable(k, s) && Faithful(k, s)
    ensures Rebuild(k, s.genesis, s.journal).Some? && Sane(k, Rebuild(k, s.genesis, s.journal).value)
  {
    RestartRestores(k, s);
  }

  /** A cut inside an operation, before its height is recorded, brings back the chain before it. */
  lemma PartKeepsChain(k: Crypto, s: LedgerState, u: LedgerState, part: seq<Write>)
    requires Durable(k, s) && Faithful(k, s)
    requires Durable(k, u) && u.genesis == s.genesis && s.journal + part <= u.journal && NoHeight(part)
    requires |s.blocks| <= |u.blocks| && SameChain(s.blocks, u.blocks[..|s.blocks|])
    ensures var r := Rebuild(k, s.genesis, s.journal + part);
      r.Some? && r.value.genesis == s.genesis && r.value.journal == s.journal + part &&
      AccountsAt(k, s.genesis, r.value.blocks) == AccountsOf(s)
  {
    var cut := s.journal + part;
    assert u.journal[..|cut|] == cut;
    RisingMore(s.journal, part);
    CrashRecovers(k, u, |cut|);
    var t := Rebuild(k, s.genesis, cut).value;
    assert SameChain(t.blocks, s.blocks) by {
      forall i | 0 <= i < |s.blocks| ensures SameContent(t.blocks[i], s.blocks[i]) {
        assert SameContent(s.blocks[i], u.blocks[..|s.blocks|][i]);
      }
    }
    SameAccountsAt(k, s.genesis, t.blocks, s.blocks);
  }

  lemma PartIsSane(k: Crypto, s: LedgerState, u: LedgerState, part: seq<Write>)
    requires Durable(k, s) && Faithful(k, s) && !Dangling(s.journal)
    requires Durable(k, u) && u.genesis == s.genesis && s.journal + part <= u.journal && NoHeight(part)
    requires |s.blocks| <= |u.blocks| && SameChain(s.blocks, u.blocks[..|s.blocks|])
    requires HasAccount(part) <==> AccountsAfter(AccountsOf(s), part) != AccountsOf(s)
    ensures var r := Rebuild(k, s.genesis, s.journal + part);
      r.Some? && (Sane(k, r.value) <==> !Dangling(s.journal + part))
  {
    PartKeepsChain(k, s, u, part);
    AccountsConcat(map[], s.journal, part);
    DanglingMore(s.journal, part);
  }

  /** The writes that an operation adds. */
  function Added(k: Crypto, s: LedgerState, op: Op): seq<Write>
    requires s.blocks != []
  {
    match op
    case SubmitOp(_) => []
    case MineOp(p) => MinedBatch(k, s).writes + CommitWrites(k, MinedBlock(k, s, p))
    case ApplyOp(b) =>
      if b.header.height < |s.blocks| || !FitsTip(k, s, b) then []
      else if RootsMatch(k, AppliedBatch(k, s, b), b.header)
      then AppliedBatch(k, s, b).writes + CommitWrites(k, b)
      else AppliedBatch(k, s, b).writes
    case CommitOp(h, sigs) =>
      if h >= |s.blocks| then []
      else
        var b := s.blocks[h].(lastCommit := sigs);
        [PutBlock(h, b), PutBlockHash(k.blockHash(b.header), h)]
  }

  lemma AddedIsAdded(k: Crypto, s: LedgerState, op: Op)
    requires s.blocks != []
    ensures Do(k, s, op).journal == s.journal + Added(k, s, op)
  {
    match op
    case SubmitOp(_) =>
    case MineOp(p) =>
      assert s.journal + MinedBatch(k, s).writes + CommitWrites(k, MinedBlock(k, s, p)) == s.journal + Added(k, s, op);
    case ApplyOp(b) =>
      assert s.journal + AppliedBatch(k, s, b).writes + CommitWrites(k, b)
          == s.journal + (AppliedBatch(k, s, b).writes + CommitWrites(k, b));
    case CommitOp(_, _) =>
  }

  /** A part of what a clean operation adds, up to but not including the recorded height. */
  lemma PartOfOp(k: Crypto, s: LedgerState, op: Op, j: nat)
    requires s.blocks != [] && NoncesLeft(AccountsOf(s)) && j < |Added(k, s, op)|
    requires op.ApplyOp? ==> !Apply(k, s, op.block).1.RefusedLate?
    ensures var part := Added(k, s, op)[..j];
      HasAccount(part) <==> AccountsAfter(AccountsOf(s), part) != AccountsOf(s)
  {
    match op
    case SubmitOp(_) =>
    case MineOp(p) =>
      BatchRises(k, s.genesis.chainId, |s.blocks|, AccountsOf(s), s.mempool);
      PartOfBlock(k, AccountsOf(s), MinedBatch(k, s).writes, MinedBlock(k, s, p), j);
    case ApplyOp(b) =>
      BatchRises(k, s.genesis.chainId, b.header.height, AccountsOf(s), b.transactions);
      PartOfBlock(k, AccountsOf(s), AppliedBatch(k, s, b).writes, b, j);
    case CommitOp(h, sigs) =>
      var part := Added(k, s, op)[..j];
      assert forall i :: 0 <= i < |part| ==> part[i] == Added(k, s, op)[i];
      assert forall w <- part :: !w.PutAccount?;
      AccountsIgnore(AccountsOf(s), part);
  }

  lemma StepKeepsChain(k: Crypto, s: LedgerState, op: Op)
    requires s.blocks != []
    ensures var t := Do(k, s, op); |s.blocks| <= |t.blocks| && SameChain(s.blocks, t.blocks[..|s.blocks|])
  {
  }

  /** An operation keeps the chain so far and writes all it adds. */
  lemma StepExtends(k: Crypto, s: LedgerState, op: Op, j: nat) returns (u: LedgerState)
    requires Durable(k, s) && j <= |Added(k, s, op)|
    ensures Durable(k, u) && u.genesis == s.genesis && s.journal + Added(k, s, op)[..j] <= u.journal
    ensures |s.blocks| <= |u.blocks| && SameChain(s.blocks, u.blocks[..|s.blocks|])
  {
    u := Do(k, s, op);
    StepDurable(k, s, op);
    AddedIsAdded(k, s, op);
    StepKeepsChain(k, s, op);
    TakePrefix(s.journal, Added(k, s, op), j);
  }

  lemma TakePrefix(a: seq<Write>, b: seq<Write>, j: nat)
    requires j <= |b|
    ensures a + b[..j] <= a + b
  {
    assert a + b == a + b[..j] + b[j..];
  }

  lemma AddedNoHeight(k: Crypto, s: LedgerState, op: Op, j: nat)
    requires s.blocks != [] && j < |Added(k, s, op)|
    requires op.ApplyOp? ==> !Apply(k, s, op.block).1.RefusedLate?
    ensures NoHeight(Added(k, s, op)[..j])
  {
    match op
    case SubmitOp(_) =>
    case MineOp(p) =>
      BatchesQuiet(k, s.genesis.chainId, |s.blocks|, AccountsOf(s), s.mempool);
      BlockNoHeight(k, MinedBatch(k, s).writes, MinedBlock(k, s, p), j);
    case ApplyOp(b) =>
      BatchesQuiet(k, s.genesis.chainId, b.header.height, AccountsOf(s), b.transactions);
      BlockNoHeight(k, AppliedBatch(k, s, b).writes, b, j);
    case CommitOp(h, sigs) =>
      assert forall w <- Added(k, s, op) :: !w.PutHeight?;
  }

  lemma BlockNoHeight(k: Crypto, ws: seq<Write>, b: Block, j: nat)
    requires Quiet(ws) && j < |ws| + 3
    ensures NoHeight((ws + CommitWrites(k, b))[..j])
  {
    var all := ws + CommitWrites(k, b);
    forall w <- all[..j] ensures !w.PutHeight? {
      var i :| 0 <= i < j && all[i] == w;
      assert i < |ws| ==> ws[i] in ws;
    }
  }

  /** What to reopen after a crash that lost all but the first `p` writes of a run. */
  function Cut(k: Crypto, g: Genesis, ops: seq<Op>, p: nat): seq<Write>
    requires p <= |Run(k, g, ops).journal|
  {
    Run(k, g, ops).journal[..p]
  }

  /** The writes can be reopened, and no account of the recovered chain has used up its nonces. */
  ghost predicate Recoverable(k: Crypto, g: Genesis, ws: seq<Write>) {
    Rebuild(k, g, ws).Some? && NoncesLeft(AccountsAt(k, g, Rebuild(k, g, ws).value.blocks))
  }

  /** When a crash is harmless. After any clean run without overflows, which a genesis total below
      2^128 rules out, cut the journal after any number of writes such that a height is recorded. The accounts that
      come back are those the recovered chain leads to if and only if no account was written after
      the last height was recorded, as long as no account has used up its nonces. */
  lemma {:induction false} CrashHarmlessExactly(k: Crypto, g: Genesis, ops: seq<Op>, p: nat)
    requires Clean(k, g, ops) && Smooth(k, g, ops)
    requires p <= |Run(k, g, ops).journal| && Recoverable(k, g, Cut(k, g, ops, p))
    ensures Sane(k, Rebuild(k, g, Cut(k, g, ops, p)).value) <==> !Dangling(Cut(k, g, ops, p))
  {
    if p == |Run(k, g, ops).journal| {
      WholeRun(k, g, ops);
    } else if ops == [] {
      InitUnrecorded(k, g, p);
    } else {
      var front, op := ops[..|ops| - 1], ops[|ops| - 1];
      CutEarlier(k, g, ops, p);
      if p <= |Run(k, g, front).journal| {
        CrashHarmlessExactly(k, g, front, p);
      } else {
        CrashInside(k, g, ops, p - |Run(k, g, front).journal|);
      }
    }
  }

  lemma WholeRun(k: Crypto, g: Genesis, ops: seq<Op>)
    requires Clean(k, g, ops) && Smooth(k, g, ops)
    ensures var cut := Cut(k, g, ops, |Run(k, g, ops).journal|);
      !Dangling(cut) && Rebuild(k, g, cut).Some? && Sane(k, Rebuild(k, g, cut).value)
  {
    var u := Run(k, g, ops);
    assert Cut(k, g, ops, |u.journal|) == u.journal;
    RunDurable(k, g, ops);
    SmoothIsFaithful(k, g, ops);
    WholeIsSane(k, u);
    CleanNotDangling(k, g, ops);
  }

  /** A cut either reaches no further than the earlier operations, or ends inside the last. */
  lemma CutEarlier(k: Crypto, g: Genesis, ops: seq<Op>, p: nat)
    requires ops != [] && p <= |Run(k, g, ops).journal|
    ensures var s, op := Run(k, g, ops[..|ops| - 1]), ops[|ops| - 1];
      if p <= |s.journal| then Cut(k, g, ops, p) == Cut(k, g, ops[..|ops| - 1], p)
      else p - |s.journal| <= |Added(k, s, op)| && Cut(k, g, ops, p) == s.journal + Added(k, s, op)[..p - |s.journal|]
  {
    AddedIsAdded(k, Run(k, g, ops[..|ops| - 1]), ops[|ops| - 1]);
  }

  /** Before the genesis height is recorded there is nothing to reopen. */
  lemma InitUnrecorded(k: Crypto, g: Genesis, p: nat)
    requires p < |Init(k, g).journal|
    ensures Rebuild(k, g, Init(k, g).journal[..p]).None?
  {
    var ws := GenesisWrites(g.accounts);
    var cut := Init(k, g).journal[..p];
    GenesisQuiet(g.accounts);
    forall w <- cut ensures !w.PutHeight? {
      var i :| 0 <= i < p && Init(k, g).journal[i] == w;
      assert i < |ws| ==> ws[i] in ws;
    }
    assert Rising([]);
    RisingMore([], cut);
    assert [] + cut == cut;
    TipIsStored(cut);
  }

  lemma CrashInside(k: Crypto, g: Genesis, ops: seq<Op>, j: nat)
    requires ops != [] && Clean(k, g, ops) && Smooth(k, g, ops)
    requires var s, op := Run(k, g, ops[..|ops| - 1]), ops[|ops| - 1];
      j < |Added(k, s, op)| && Recoverable(k, g, s.journal + Added(k, s, op)[..j])
    ensures var s, op := Run(k, g, ops[..|ops| - 1]), ops[|ops| - 1];
      var cut := s.journal + Added(k, s, op)[..j];
      Sane(k, Rebuild(k, g, cut).value) <==> !Dangling(cut)
  {
    var front, op := ops[..|ops| - 1], ops[|ops| - 1];
    var s := Run(k, g, front);
    RunDurable(k, g, front);
    SmoothIsFaithful(k, g, front);
    CleanNotDangling(k, g, front);
    CrashInStep(k, s, op, j);
  }

  lemma CrashInStep(k: Crypto, s: LedgerState, op: Op, j: nat)
    requires Durable(k, s) && Faithful(k, s) && !Dangling(s.journal) && j < |Added(k, s, op)|
    requires op.ApplyOp? ==> !Apply(k, s, op.block).1.RefusedLate?
    requires Recoverable(k, s.genesis, s.journal + Added(k, s, op)[..j])
    ensures var cut := s.journal + Added(k, s, op)[..j];
      Sane(k, Rebuild(k, s.genesis, cut).value) <==> !Dangling(cut)
  {
    var u := StepExtends(k, s, op, j);
    AddedNoHeight(k, s, op, j);
    PartKeepsChain(k, s, u, Added(k, s, op)[..j]);
    PartOfOp(k, s, op, j);
    PartIsSane(k, s, u, Added(k, s, op)[..j]);
  }


  // ---------------------------------------------------------------------------------
  // Refused blocks

  /** A block that fits the tip but is refused leaves the accounts as they were if and only if it
      is empty or its first transaction is refused outright. */
  lemma LateRefusalKeepsAccounts(k: Crypto, s: LedgerState, b: Block)
    requires s.blocks != [] && Apply(k, s, b).1.RefusedLate? && NoncesLeft(AccountsOf(s))
    ensures AccountsOf(Apply(k, s, b).0) == AccountsOf(s)
      <==> b.transactions == [] || Refusal(k, AccountsOf(s), b.transactions[0], s.genesis.chainId).Some?
  {
    var ws := AppliedBatch(k, s, b).writes;
    BatchRises(k, s.genesis.chainId, b.header.height, AccountsOf(s), b.transactions);
    ApplyWritesNothing(k, s.genesis.chainId, b.header.height, AccountsOf(s), b.transactions);
    ApplyAccounts(k, s, b);
    if ws != [] {
      assert ws[..|ws|] == ws;
      PartChanges(AccountsOf(s), ws, |ws|);
    }
  }
}
