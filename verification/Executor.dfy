/** Transaction execution: static validation, debit, credits, nonce, and what it does to the
    total supply. */
module Executor {
  import opened Basics
  import opened Sums
  import opened ChainTypes

  datatype ExecError = Unauthorized | InvalidNonce | CostOverflow | InsufficientFunds | CreditOverflow

  datatype Outcome = Executed(receipt: Receipt) | Rejected(error: ExecError)

  /** The accounts afterwards, the writes that were made, and the answer. */
  datatype ExecResult = ExecResult(accounts: Accounts, writes: seq<Write>, outcome: Outcome)

  const BASE_TX_COST: nat := 21_000

  /** `validate_transaction_static`. */
  predicate StaticallyValid(k: Crypto, tx: Transaction, chainId: string) {
    && tx.chainId == chainId
    && k.authentic(tx)
    && forall m <- tx.messages :: m.Transfer? ==> m.amount != 0
  }

  /** The sum of all transfers, `None` on `u128` overflow. */
  function Cost(ms: seq<TxMessage>): Option<Amount> {
    if ms == [] then Some(0)
    else
      var c := Cost(ms[..|ms| - 1]);
      var m := ms[|ms| - 1];
      if c.Some? && m.Transfer? then CheckedAdd(c.value, m.amount) else c
  }

  datatype Credits = Credits(accounts: Accounts, writes: seq<Write>, ok: bool)

  function Credit(c: Credits, m: TxMessage): Credits {
    if !c.ok || !m.Transfer? then c
    else
      var r := Get(c.accounts, m.to);
      var sum := CheckedAdd(r.balance, m.amount);
      if sum.None? then c.(ok := false)
      else
        var r' := r.(balance := sum.value);
        Credits(c.accounts[m.to := r'], c.writes + [PutAccount(m.to, r')], true)
  }

  /** The credit loop; it stops at the first overflow and keeps what it has written. */
  function CreditAll(c: Credits, ms: seq<TxMessage>): Credits {
    if ms == [] then c else Credit(CreditAll(c, ms[..|ms| - 1]), ms[|ms| - 1])
  }

  /** `u64::saturating_add(1)`. */
  function NextNonce(n: nat): nat {
    if n < U64_MAX then n + 1 else n
  }

  function SuccessReceipt(k: Crypto, tx: Transaction, height: nat): Receipt {
    Receipt(k.txHash(tx), height, true, BASE_TX_COST, None, [])
  }

  /** What must hold before anything is written: the reason for a refusal, if any. */
  function Refusal(k: Crypto, m: Accounts, tx: Transaction, chainId: string): Option<ExecError> {
    var sender := Get(m, tx.sender);
    var cost := Cost(tx.messages);
    if !StaticallyValid(k, tx, chainId) then Some(Unauthorized)
    else if tx.nonce != sender.nonce then Some(InvalidNonce)
    else if cost.None? || CheckedAdd(cost.value, tx.fee).None? then Some(CostOverflow)
    else if sender.balance < cost.value + tx.fee then Some(InsufficientFunds)
    else None
  }

  /** The sender account after the debit. */
  function Debited(m: Accounts, tx: Transaction): Account
    requires Cost(tx.messages).Some? && Cost(tx.messages).value + tx.fee <= Get(m, tx.sender).balance
  {
    var s := Get(m, tx.sender);
    s.(balance := s.balance - (Cost(tx.messages).value + tx.fee), nonce := NextNonce(s.nonce))
  }

  /** `execute_transaction`. */
  function Execute(k: Crypto, m: Accounts, tx: Transaction, height: nat, chainId: string): ExecResult {
    var no := Refusal(k, m, tx, chainId);
    if no.Some? then ExecResult(m, [], Rejected(no.value))
    else
      var s := Debited(m, tx);
      var c := CreditAll(Credits(m[tx.sender := s], [PutAccount(tx.sender, s)], true), tx.messages);
      ExecResult(c.accounts, c.writes,
                 if c.ok then Executed(SuccessReceipt(k, tx, height)) else Rejected(CreditOverflow))
  }

  /** The cost loop. */
  method TransferCost(ms: seq<TxMessage>) returns (cost: Option<Amount>)
    ensures cost == Cost(ms)
  {
    var sum := 0;
    for i := 0 to |ms|
      invariant Cost(ms[..i]) == Some(sum)
    {
      assert ms[..i + 1][..i] == ms[..i];
      if ms[i].Transfer? {
        var next := CheckedAdd(sum, ms[i].amount);
        if next.None? {
          CostStaysNone(ms, i + 1);
          return None;
        }
        sum := next.value;
      }
    }
    assert ms[..|ms|] == ms;
    cost := Some(sum);
  }

  /** The credit loop, from a store that holds what `start` has made of `data`. */
  method CreditMessages(store: ChainStore, ms: seq<TxMessage>, ghost start: Credits, ghost journal: seq<Write>,
                        ghost data: Store)
      returns (ok: bool)
    requires store.Valid() && start.ok
    requires store.journal == journal + start.writes && store.data == data.(accounts := start.accounts)
    modifies store
    ensures store.Valid()
    ensures var c := CreditAll(start, ms);
      ok == c.ok && store.journal == journal + c.writes && store.data == data.(accounts := c.accounts)
  {
    for i := 0 to |ms|
      invariant store.Valid()
      invariant var c := CreditAll(start, ms[..i]);
        c.ok && store.journal == journal + c.writes && store.data == data.(accounts := c.accounts)
    {
      assert ms[..i + 1][..i] == ms[..i];
      if ms[i].Transfer? {
        var r := Get(store.data.accounts, ms[i].to);
        var sum := CheckedAdd(r.balance, ms[i].amount);
        if sum.None? {
          CreditStaysFailed(start, ms, i + 1);
          return false;
        }
        store.Put(PutAccount(ms[i].to, r.(balance := sum.value)));
      }
    }
    assert ms[..|ms|] == ms;
    ok := true;
  }

  method ExecuteTransaction(k: Crypto, store: ChainStore, tx: Transaction, height: nat, chainId: string)
      returns (outcome: Outcome)
    requires store.Valid()
    modifies store
    ensures store.Valid()
    ensures var r := Execute(k, old(store.data.accounts), tx, height, chainId);
      && outcome == r.outcome && store.journal == old(store.journal) + r.writes
      && store.data == old(store.data).(accounts := r.accounts)
  {
    if !StaticallyValid(k, tx, chainId) { return Rejected(Unauthorized); }
    var sender := Get(store.data.accounts, tx.sender);
    if tx.nonce != sender.nonce { return Rejected(InvalidNonce); }
    var cost := TransferCost(tx.messages);
    if cost.None? || CheckedAdd(cost.value, tx.fee).None? { return Rejected(CostOverflow); }
    if sender.balance < cost.value + tx.fee { return Rejected(InsufficientFunds); }
    sender := sender.(balance := sender.balance - (cost.value + tx.fee), nonce := NextNonce(sender.nonce));
    store.Put(PutAccount(tx.sender, sender));
    ghost var start := Credits(old(store.data.accounts)[tx.sender := sender], [PutAccount(tx.sender, sender)], true);
    var ok := CreditMessages(store, tx.messages, start, old(store.journal), old(store.data));
    outcome := if ok then Executed(SuccessReceipt(k, tx, height)) else Rejected(CreditOverflow);
  }

  lemma {:induction false} CostStaysNone(ms: seq<TxMessage>, i: nat)
    requires i <= |ms| && Cost(ms[..i]).None?
    ensures Cost(ms).None?
    decreases |ms|
  {
    if i < |ms| {
      assert ms[..|ms| - 1][..i] == ms[..i];
      CostStaysNone(ms[..|ms| - 1], i);
    } else {
      assert ms[..i] == ms;
    }
  }

  lemma {:induction false} CreditStaysFailed(c: Credits, ms: seq<TxMessage>, i: nat)
    requires i <= |ms| && !CreditAll(c, ms[..i]).ok
    ensures CreditAll(c, ms) == CreditAll(c, ms[..i])
    decreases |ms|
  {
    if i < |ms| {
      assert ms[..|ms| - 1][..i] == ms[..i];
      CreditStaysFailed(c, ms[..|ms| - 1], i);
    } else {
      assert ms[..i] == ms;
    }
  }

  // ---------------------------------------------------------------------------------
  // Balances

  /** All that the messages transfer. */
  function Transferred(ms: seq<TxMessage>): nat {
    if ms == [] then 0
    else Transferred(ms[..|ms| - 1]) + if ms[|ms| - 1].Transfer? then ms[|ms| - 1].amount else 0
  }

  /** What the messages transfer to `a`. */
  function Received(ms: seq<TxMessage>, a: Address): nat {
    if ms == [] then 0
    else
      var m := ms[|ms| - 1];
      Received(ms[..|ms| - 1], a) + if m.Transfer? && m.to == a then m.amount else 0
  }

  /** The total of all balances. */
  ghost function Total(m: Accounts): nat {
    Sum(m.Keys, a => Get(m, a).balance)
  }

  lemma TotalPut(m: Accounts, a: Address, x: Account)
    ensures Total(m[a := x]) + Get(m, a).balance == Total(m) + x.balance
  {
    var n := m[a := x];
    var f, g := (b: Address) => Get(m, b).balance, (b: Address) => Get(n, b).balance;
    if a in m {
      assert n.Keys == m.Keys;
      SumUpdate(m.Keys, f, g, a);
    } else {
      assert n.Keys == m.Keys + {a};
      SumAdd(m.Keys, g, a);
      SumSame(m.Keys, f, g);
    }
  }

  lemma BalanceBelowTotal(m: Accounts, a: Address)
    ensures Get(m, a).balance <= Total(m)
  {
    if a in m { SumElement(m.Keys, b => Get(m, b).balance, a); }
  }

  lemma {:induction false} CostIsTransferred(ms: seq<TxMessage>)
    ensures Cost(ms) == if Transferred(ms) < TWO_128 then Some(Transferred(ms)) else None
  {
    if ms != [] { CostIsTransferred(ms[..|ms| - 1]); }
  }

  /** Credits that fit into 128 bits together with all balances cannot overflow. */
  lemma {:induction false} CreditsSucceed(c: Credits, ms: seq<TxMessage>)
    requires c.ok && Total(c.accounts) + Transferred(ms) < TWO_128
    ensures CreditAll(c, ms).ok && Total(CreditAll(c, ms).accounts) == Total(c.accounts) + Transferred(ms)
  {
    if ms != [] {
      var d, m := CreditAll(c, ms[..|ms| - 1]), ms[|ms| - 1];
      CreditsSucceed(c, ms[..|ms| - 1]);
      if m.Transfer? {
        BalanceBelowTotal(d.accounts, m.to);
        var r := Get(d.accounts, m.to);
        TotalPut(d.accounts, m.to, r.(balance := r.balance + m.amount));
      }
    }
  }

  lemma {:induction false} CreditsReach(c: Credits, ms: seq<TxMessage>, a: Address)
    requires CreditAll(c, ms).ok
    ensures Get(CreditAll(c, ms).accounts, a)
      == Get(c.accounts, a).(balance := Get(c.accounts, a).balance + Received(ms, a))
  {
    if ms != [] { CreditsReach(c, ms[..|ms| - 1], a); }
  }

  /** Every recipient can hold its balance and all it is sent. */
  predicate Roomy(m: Accounts, ms: seq<TxMessage>) {
    forall x <- ms :: x.Transfer? ==> Get(m, x.to).balance + Received(ms, x.to) < TWO_128
  }

  lemma ReceivedMore(ms: seq<TxMessage>, a: Address)
    requires ms != []
    ensures Received(ms[..|ms| - 1], a) <= Received(ms, a)
    ensures !(ms[|ms| - 1].Transfer? && ms[|ms| - 1].to == a) ==> Received(ms[..|ms| - 1], a) == Received(ms, a)
  {
  }

  /** The credit loop gets through exactly when there is room. */
  lemma {:induction false} CreditsFit(c: Credits, ms: seq<TxMessage>)
    requires c.ok
    ensures CreditAll(c, ms).ok <==> Roomy(c.accounts, ms)
  {
    if ms != [] {
      var front, last := ms[..|ms| - 1], ms[|ms| - 1];
      assert ms == front + [last];
      CreditsFit(c, front);
      forall x <- ms { ReceivedMore(ms, if x.Transfer? then x.to else 0); }
      assert forall x <- front :: x in ms;
      if CreditAll(c, front).ok && last.Transfer? { CreditsReach(c, front, last.to); }
    }
  }

  /** The transaction passes all checks, but a recipient cannot hold what it is sent. */
  predicate Overflowing(k: Crypto, m: Accounts, tx: Transaction, chainId: string) {
    Refusal(k, m, tx, chainId).None? && !Roomy(m[tx.sender := Debited(m, tx)], tx.messages)
  }

  /** When a transaction executes, in terms of the accounts before: the checks pass and every
      recipient has room. With the checks passed, lack of room is the only other outcome. */
  lemma ExecutesExactly(k: Crypto, m: Accounts, tx: Transaction, height: nat, chainId: string)
    ensures var outcome := Execute(k, m, tx, height, chainId).outcome;
      && (outcome.Executed? <==> Refusal(k, m, tx, chainId).None? && !Overflowing(k, m, tx, chainId))
      && (outcome == Rejected(CreditOverflow) <==> Overflowing(k, m, tx, chainId))
  {
    if Refusal(k, m, tx, chainId).None? {
      var s := Debited(m, tx);
      CreditsFit(Credits(m[tx.sender := s], [PutAccount(tx.sender, s)], true), tx.messages);
    }
  }

  /** All or nothing. While all balances together fit into 128 bits, a transaction either fails
      and leaves the accounts untouched, or lowers the total by exactly its fee. */
  lemma AllOrNothing(k: Crypto, m: Accounts, tx: Transaction, height: nat, chainId: string)
    requires Total(m) < TWO_128
    ensures var r := Execute(k, m, tx, height, chainId);
      if r.outcome.Executed? then Total(r.accounts) + tx.fee == Total(m)
      else r.accounts == m && r.writes == [] && r.outcome.error != CreditOverflow
    ensures Execute(k, m, tx, height, chainId).outcome.Executed? <==> Refusal(k, m, tx, chainId).None?
  {
    if Refusal(k, m, tx, chainId).None? {
      var s := Debited(m, tx);
      CostIsTransferred(tx.messages);
      BalanceBelowTotal(m, tx.sender);
      TotalPut(m, tx.sender, s);
      CreditsSucceed(Credits(m[tx.sender := s], [PutAccount(tx.sender, s)], true), tx.messages);
    }
  }

  /** Credits add to the total what they transfer, and strictly less when one overflows. */
  lemma {:induction false} CreditTotals(c: Credits, ms: seq<TxMessage>)
    requires c.ok && forall m <- ms :: m.Transfer? ==> m.amount != 0
    ensures var d := CreditAll(c, ms);
      if d.ok then Total(d.accounts) == Total(c.accounts) + Transferred(ms)
      else Total(d.accounts) < Total(c.accounts) + Transferred(ms)
  {
    if ms != [] {
      var d, m := CreditAll(c, ms[..|ms| - 1]), ms[|ms| - 1];
      assert m in ms;
      CreditTotals(c, ms[..|ms| - 1]);
      if m.Transfer? {
        var r := Get(d.accounts, m.to);
        TotalPut(d.accounts, m.to, r.(balance := r.balance + m.amount));
      }
    }
  }

  /** Without any bound: an executed transaction costs the total exactly its fee, one that
      overflows while crediting costs it more, and any other changes nothing. */
  lemma ExecuteTotal(k: Crypto, m: Accounts, tx: Transaction, height: nat, chainId: string)
    ensures var r := Execute(k, m, tx, height, chainId);
      match r.outcome
      case Executed(_) => Total(r.accounts) + tx.fee == Total(m)
      case Rejected(e) =>
        if e == CreditOverflow then Total(r.accounts) + tx.fee < Total(m) else r.accounts == m && r.writes == []
  {
    if Refusal(k, m, tx, chainId).None? {
      var s := Debited(m, tx);
      CostIsTransferred(tx.messages);
      TotalPut(m, tx.sender, s);
      CreditTotals(Credits(m[tx.sender := s], [PutAccount(tx.sender, s)], true), tx.messages);
    }
  }

  /** Execution is atomic exactly when it does not overflow: otherwise the debit, and the credits
      before the one without room, stay behind. */
  lemma AtomicExactly(k: Crypto, m: Accounts, tx: Transaction, height: nat, chainId: string)
    ensures var r := Execute(k, m, tx, height, chainId);
      && (r.outcome.Executed? || r.accounts == m <==> !Overflowing(k, m, tx, chainId))
      && (r.outcome.Executed? || r.writes == [] <==> !Overflowing(k, m, tx, chainId))
  {
    ExecutesExactly(k, m, tx, height, chainId);
    ExecuteTotal(k, m, tx, height, chainId);
    if Overflowing(k, m, tx, chainId) {
      var d := Debited(m, tx);
      CreditsWrite(Credits(m[tx.sender := d], [PutAccount(tx.sender, d)], true), tx.messages);
    }
  }

  lemma {:induction false} CreditsWrite(c: Credits, ms: seq<TxMessage>)
    ensures |c.writes| <= |CreditAll(c, ms).writes|
  {
    if ms != [] { CreditsWrite(c, ms[..|ms| - 1]); }
  }

  /** What an executed transaction does to every account: the sender pays transfers and fee and
      its nonce moves on, everybody receives what was sent to them, nothing else changes. */
  lemma ExecutionEffect(k: Crypto, m: Accounts, tx: Transaction, height: nat, chainId: string, a: Address)
    requires Execute(k, m, tx, height, chainId).outcome.Executed?
    ensures var after := Get(Execute(k, m, tx, height, chainId).accounts, a);
      var before := Get(m, a);
      && after.codeHash == before.codeHash && after.storageRoot == before.storageRoot
      && after.nonce == (if a == tx.sender then NextNonce(tx.nonce) else before.nonce)
      && after.balance + (if a == tx.sender then Transferred(tx.messages) + tx.fee else 0)
           == before.balance + Received(tx.messages, a)
  {
    var s := Debited(m, tx);
    CostIsTransferred(tx.messages);
    CreditsReach(Credits(m[tx.sender := s], [PutAccount(tx.sender, s)], true), tx.messages, a);
  }

  /** A credit writes nothing or puts one account. */
  lemma CreditShape(c: Credits, m: TxMessage) returns (a: Address, x: Account)
    ensures var d := Credit(c, m);
      || (d.accounts == c.accounts && d.writes == c.writes)
      || (d.accounts == c.accounts[a := x] && d.writes == c.writes + [PutAccount(a, x)])
  {
    a, x := 0, DEFAULT_ACCOUNT;
    if m.Transfer? {
      a, x := m.to, Get(c.accounts, m.to).(balance := Get(c.accounts, m.to).balance + m.amount);
    }
  }

  lemma {:induction false} CreditWrites(m: Accounts, c: Credits, ms: seq<TxMessage>)
    requires AccountsAfter(m, c.writes) == c.accounts
    ensures AccountsAfter(m, CreditAll(c, ms).writes) == CreditAll(c, ms).accounts
  {
    if ms != [] {
      var d := CreditAll(c, ms[..|ms| - 1]);
      CreditWrites(m, c, ms[..|ms| - 1]);
      var a, x := CreditShape(d, ms[|ms| - 1]);
      AccountsOneMore(m, d.writes, PutAccount(a, x));
    }
  }

  /** The accounts afterwards are what the writes make of them. */
  lemma ExecuteWrites(k: Crypto, m: Accounts, tx: Transaction, height: nat, chainId: string)
    ensures var r := Execute(k, m, tx, height, chainId); AccountsAfter(m, r.writes) == r.accounts
  {
    if Refusal(k, m, tx, chainId).None? {
      var d := Debited(m, tx);
      AccountsOneMore(m, [], PutAccount(tx.sender, d));
      assert [] + [PutAccount(tx.sender, d)] == [PutAccount(tx.sender, d)];
      CreditWrites(m, Credits(m[tx.sender := d], [PutAccount(tx.sender, d)], true), tx.messages);
    }
  }

  /** Execution writes accounts only. */
  lemma ExecuteWritesAccounts(k: Crypto, m: Accounts, tx: Transaction, height: nat, chainId: string)
    ensures forall w <- Execute(k, m, tx, height, chainId).writes :: w.PutAccount?
  {
    if Refusal(k, m, tx, chainId).None? {
      var d := Debited(m, tx);
      CreditWritesAccounts(Credits(m[tx.sender := d], [PutAccount(tx.sender, d)], true), tx.messages);
    }
  }

  lemma {:induction false} CreditWritesAccounts(c: Credits, ms: seq<TxMessage>)
    requires forall w <- c.writes :: w.PutAccount?
    ensures forall w <- CreditAll(c, ms).writes :: w.PutAccount?
  {
    if ms != [] { CreditWritesAccounts(c, ms[..|ms| - 1]); }
  }
}
