/**
 What every call to the vault and to the exchange asks for and does, written out: exactly when it commits,
 and exactly what it leaves behind.
 */
module Calls {
  import opened Chain
  import opened Ledgers
  import opened Fees
  import opened Exchange
  import opened ChainRuns
  import C = Custody

  // ---- Movements, account by account ----

  /** One account moves by `d`, and no other moves. */
  ghost predicate Shifts(m: map<Address, int>, m': map<Address, int>, a: Address, d: int) {
    && Get(m', a) == Get(m, a) + d
    && forall k | k != a :: Get(m', k) == Get(m, k)
  }

  /** `amount` moves from one account to another, and nothing else moves. */
  ghost predicate Sends(m: map<Address, int>, m': map<Address, int>, from: Address, to: Address, amount: nat) {
    if from == to then forall k :: Get(m', k) == Get(m, k)
    else
      && Get(m', from) == Get(m, from) - amount && Get(m', to) == Get(m, to) + amount
      && forall k | k != from && k != to :: Get(m', k) == Get(m, k)
  }

  lemma {:induction false} PostedShifts(m: map<Address, int>, a: Address, d: int, m': map<Address, int>)
    requires Posted(m, [Entry(a, d)], m')
    ensures Shifts(m, m', a, d)
  {
    forall k ensures Get(m', k) == Get(m, k) + if k == a then d else 0 {
      SumOfOne(Entry(a, d), k);
    }
  }

  lemma {:induction false} PostedSends(m: map<Address, int>, from: Address, to: Address, amount: nat,
                                       m': map<Address, int>)
    requires Posted(m, C.Transfer(from, to, amount), m')
    ensures Sends(m, m', from, to, amount)
  {
    forall k
      ensures Get(m', k)
           == Get(m, k) + (if from == k then -(amount as int) else 0) + (if to == k then amount else 0)
    {
      C.TransferSums(from, to, amount, k);
    }
  }

  /** On to a third party by way of `mid`. */
  lemma {:induction false} PostedThrough(m: map<Address, int>, from: Address, mid: Address, to: Address, amount: nat,
                                         m': map<Address, int>)
    requires Posted(m, C.Transfer(from, mid, amount) + C.Transfer(mid, to, amount), m')
    ensures Sends(m, m', from, to, amount)
  {
    forall k
      ensures Get(m', k)
           == Get(m, k) + (if from == k then -(amount as int) else 0) + (if to == k then amount else 0)
    {
      SumOfConcat(C.Transfer(from, mid, amount), C.Transfer(mid, to, amount), k);
      C.TransferSums(from, mid, amount, k);
      C.TransferSums(mid, to, amount, k);
    }
  }

  // ---- Money in and out ----

  /**
   A deposit commits exactly when the vault is up, something is deposited, the caller pays for it and the
   balance fits.  It moves that much USDC from the caller to the vault and onto the caller's balance.
   */
  lemma {:induction false} DepositExactly(w: World, m: Move, w': World, amount: nat, approved: bool)
    requires Step(w, m, w') && m.call == ToVault(C.Deposit(amount, approved))
    ensures Commits(w, m) <==>
      && !w.vault.paused && amount > 0 && approved
      && Get(w.vault.usdc, m.tx.sender) >= amount
      && Get(w.vault.balances, m.tx.sender) + amount < TWO_256
    ensures if !Commits(w, m) then w' == w else
      && Shifts(w.vault.balances, w'.vault.balances, m.tx.sender, amount)
      && Sends(w.vault.usdc, w'.vault.usdc, m.tx.sender, VAULT, amount)
      && w' == w.(vault := w.vault.(usdc := w'.vault.usdc, balances := w'.vault.balances))
  {
    if Commits(w, m) {
      PostedShifts(w.vault.balances, m.tx.sender, amount, w'.vault.balances);
      PostedSends(w.vault.usdc, m.tx.sender, VAULT, amount, w'.vault.usdc);
    }
  }

  /** A holder of the signer's role has authorized this withdrawal: account, amount, next nonce and deadline. */
  predicate Authorized(v: C.Vault, auth: C.Authorization, account: Address, amount: nat, deadline: nat) {
    && auth.account == account && auth.amount == amount && auth.deadline == deadline
    && auth.nonce == (if account in v.nonces then v.nonces[account] else 0)
    && (WithdrawalSigner, Wallet(auth.key)) in v.roles
  }

  /**
   A withdrawal commits exactly when the vault is up, it is for something, in time, authorized to the caller,
   and covered by the caller's balance and the vault.  It pays the caller and uses up the authorization.
   */
  lemma {:induction false} WithdrawExactly(w: World, m: Move, w': World, amount: nat, deadline: nat,
                                           auth: C.Authorization)
    requires Step(w, m, w') && m.call == ToVault(C.Withdraw(amount, deadline, auth))
    ensures Commits(w, m) <==>
      && !w.vault.paused && amount > 0 && m.tx.now <= deadline
      && Authorized(w.vault, auth, m.tx.sender, amount, deadline)
      && Get(w.vault.balances, m.tx.sender) >= amount
      && Get(w.vault.usdc, VAULT) >= amount && m.tx.sender != Zero
    ensures if !Commits(w, m) then w' == w else
      && Shifts(w.vault.balances, w'.vault.balances, m.tx.sender, -(amount as int))
      && Sends(w.vault.usdc, w'.vault.usdc, VAULT, m.tx.sender, amount)
      && w' == w.(vault := w.vault.(usdc := w'.vault.usdc, balances := w'.vault.balances,
                                    nonces := w.vault.nonces[m.tx.sender := auth.nonce + 1]))
  {
    if Commits(w, m) {
      PostedShifts(w.vault.balances, m.tx.sender, -(amount as int), w'.vault.balances);
      PostedSends(w.vault.usdc, VAULT, m.tx.sender, amount, w'.vault.usdc);
    }
  }

  /**
   Fees are withdrawn exactly when an admin asks, the vault is up, it is for something, in time, authorized to
   the exchange, covered, and for a real destination, which receives them.
   */
  lemma {:induction false} WithdrawFeesExactly(w: World, m: Move, w': World, amount: nat, to: Address, deadline: nat,
                                               auth: C.Authorization)
    requires Step(w, m, w') && m.call == WithdrawFees(amount, to, deadline, auth)
    ensures Commits(w, m) <==>
      && (DefaultAdmin, m.tx.sender) in w.exch.roles
      && !w.vault.paused && amount > 0 && m.tx.now <= deadline
      && Authorized(w.vault, auth, EXCHANGE, amount, deadline)
      && Get(w.vault.balances, EXCHANGE) >= amount
      && Get(w.vault.usdc, VAULT) >= amount && to != Zero
    ensures if !Commits(w, m) then w' == w else
      && Shifts(w.vault.balances, w'.vault.balances, EXCHANGE, -(amount as int))
      && Sends(w.vault.usdc, w'.vault.usdc, VAULT, to, amount)
      && w' == w.(vault := w.vault.(usdc := w'.vault.usdc, balances := w'.vault.balances,
                                    nonces := w.vault.nonces[EXCHANGE := auth.nonce + 1]))
  {
    if Commits(w, m) {
      PostedShifts(w.vault.balances, EXCHANGE, -(amount as int), w'.vault.balances);
      PostedThrough(w.vault.usdc, VAULT, EXCHANGE, to, amount, w'.vault.usdc);
    }
  }

  /** The same where the exchange's token is not the vault's: it must hold as much of its own, and sends that on. */
  lemma {:induction false} ForeignFeesExactly(w: World, other: C.Balances, tx: Tx, amount: nat, to: Address,
                                              deadline: nat, auth: C.Authorization, w': World, other': C.Balances)
    ensures ForeignFeesVerdict(w, other, tx, amount, to, deadline, auth).Committed? <==>
      && (DefaultAdmin, tx.sender) in w.exch.roles
      && !w.vault.paused && amount > 0 && tx.now <= deadline
      && Authorized(w.vault, auth, EXCHANGE, amount, deadline)
      && Get(w.vault.balances, EXCHANGE) >= amount
      && Get(w.vault.usdc, VAULT) >= amount && to != Zero && Get(other, EXCHANGE) >= amount
    ensures
      var committed := ForeignFeesVerdict(w, other, tx, amount, to, deadline, auth).Committed?;
      committed && ForeignFeesEffect(w, other, tx, amount, to, deadline, auth, w', other') ==>
      && Shifts(w.vault.balances, w'.vault.balances, EXCHANGE, -(amount as int))
      && Sends(w.vault.usdc, w'.vault.usdc, VAULT, EXCHANGE, amount)
      && Sends(other, other', EXCHANGE, to, amount)
      && w' == w.(vault := w.vault.(usdc := w'.vault.usdc, balances := w'.vault.balances,
                                    nonces := w.vault.nonces[EXCHANGE := auth.nonce + 1]))
  {
    if ForeignFeesEffect(w, other, tx, amount, to, deadline, auth, w', other') {
      PostedShifts(w.vault.balances, EXCHANGE, -(amount as int), w'.vault.balances);
      PostedSends(w.vault.usdc, VAULT, EXCHANGE, amount, w'.vault.usdc);
      PostedSends(other, EXCHANGE, to, amount, other');
    }
  }

  /**
   A forced withdrawal commits exactly when it goes to a real destination, the operator has been silent for
   more than the threshold, and there is a balance, which the vault covers.  It pays out all of it.
   */
  lemma {:induction false} ForcedWithdrawalExactly(w: World, m: Move, w': World, to: Address)
    requires Step(w, m, w') && m.call == ToVault(C.ForcedWithdrawal(to))
    ensures
      var balance := Get(w.vault.balances, m.tx.sender);
      Commits(w, m) <==>
        && to != Zero && m.tx.now > w.vault.lastActivity + w.vault.threshold
        && balance > 0 && Get(w.vault.usdc, VAULT) >= balance
    ensures
      var balance := Get(w.vault.balances, m.tx.sender);
      if !Commits(w, m) then w' == w else
        && balance >= 0
        && Shifts(w.vault.balances, w'.vault.balances, m.tx.sender, -(balance as int))
        && Sends(w.vault.usdc, w'.vault.usdc, VAULT, to, balance)
        && w' == w.(vault := w.vault.(usdc := w'.vault.usdc, balances := w'.vault.balances))
  {
    if Commits(w, m) {
      var balance: nat := Get(w.vault.balances, m.tx.sender);
      PostedShifts(w.vault.balances, m.tx.sender, -(balance as int), w'.vault.balances);
      PostedSends(w.vault.usdc, VAULT, to, balance, w'.vault.usdc);
    }
  }

  // ---- Deltas ----

  /** Posting `i` of a list, in order, stays within its types and overdraws nobody. */
  ghost predicate PostingHolds(m: map<Address, int>, es: seq<Entry<Address>>, i: nat)
    requires i < |es|
  {
    var after := Get(m, es[i].account) + SumOf(es[..i + 1], es[i].account);
    && es[i].amount > -(TWO_255 as int)
    && (es[i].amount > 0 ==> after < TWO_256)
    && after >= 0
  }

  lemma {:induction false} PostingsHold(m: map<Address, int>, es: seq<Entry<Address>>)
    ensures C.PostingsVerdict(m, es).Committed? <==> forall i | 0 <= i < |es| :: PostingHolds(m, es, i)
  {
    if es == [] {
    } else {
      var n := |es| - 1;
      var done := es[..n];
      PostingsHold(m, done);
      forall i | 0 <= i < n ensures PostingHolds(m, done, i) <==> PostingHolds(m, es, i) {
        assert done[..i + 1] == es[..i + 1];
      }
      LastPostingHolds(m, es);
    }
  }

  lemma {:induction false} LastPostingHolds(m: map<Address, int>, es: seq<Entry<Address>>)
    requires es != []
    ensures
      var n := |es| - 1;
      C.PostingsVerdict(m, es).Committed? <==> C.PostingsVerdict(m, es[..n]).Committed? && PostingHolds(m, es, n)
  {
    var n := |es| - 1;
    assert es[..n + 1] == es && es[..n] + [es[n]] == es;
    SumOfSnoc(es[..n], es[n], es[n].account);
  }

  lemma {:induction false} SumsFit(es: seq<Entry<Address>>)
    ensures C.SumFits(es) <==> forall n | 0 < n <= |es| :: Signed256(SumAll(es[..n]))
  {
    if es == [] {
    } else {
      var k := |es| - 1;
      SumsFit(es[..k]);
      forall n | 0 < n <= k ensures es[..k][..n] == es[..n] {}
      assert es[..k + 1] == es;
    }
  }

  /**
   Deltas are applied exactly when the vault is up, the caller may settle, the batch is fresh, no running sum
   overflows, the deltas sum to zero and every posting holds in turn.
   */
  lemma {:induction false} ApplyExactly(w: World, m: Move, w': World, batchId: nat, deltas: seq<Entry<Address>>)
    requires Step(w, m, w') && m.call == ToVault(C.ApplyNetDeltas(batchId, deltas))
    ensures Commits(w, m) <==>
      && !w.vault.paused && (Settlement, m.tx.sender) in w.vault.roles && batchId !in w.vault.applied
      && (forall n | 0 < n <= |deltas| :: Signed256(SumAll(deltas[..n])))
      && SumAll(deltas) == 0
      && forall i | 0 <= i < |deltas| :: PostingHolds(w.vault.balances, deltas, i)
    ensures if !Commits(w, m) then w' == w else
      && (forall a :: Get(w'.vault.balances, a) == Get(w.vault.balances, a) + SumOf(deltas, a))
      && w' == w.(vault := w.vault.(balances := w'.vault.balances, applied := w.vault.applied + {batchId},
                                    lastActivity := m.tx.now))
  {
    PostingsHold(w.vault.balances, deltas);
    SumsFit(deltas);
  }

  // ---- Administration ----

  /** A heartbeat sets the clock, and nothing else, exactly when the vault is up and the caller may settle. */
  lemma {:induction false} HeartbeatExactly(w: World, m: Move, w': World)
    requires Step(w, m, w') && m.call == ToVault(C.Heartbeat)
    ensures w' ==
      if !w.vault.paused && (Settlement, m.tx.sender) in w.vault.roles
      then w.(vault := w.vault.(lastActivity := m.tx.now)) else w
  {}

  /** The pauser, and nobody else, pauses and unpauses the vault. */
  lemma {:induction false} VaultPauseExactly(w: World, m: Move, w': World)
    requires Step(w, m, w') && (m.call == ToVault(C.Pause) || m.call == ToVault(C.Unpause))
    ensures w' ==
      if (Pauser, m.tx.sender) in w.vault.roles then w.(vault := w.vault.(paused := m.call == ToVault(C.Pause))) else w
  {}

  /** The admin, and nobody else, sets the threshold, between one and ninety days. */
  lemma {:induction false} ThresholdExactly(w: World, m: Move, w': World, threshold: nat)
    requires Step(w, m, w') && m.call == ToVault(C.SetThreshold(threshold))
    ensures w' ==
      if (DefaultAdmin, m.tx.sender) in w.vault.roles && 86_400 <= threshold <= 7_776_000
      then w.(vault := w.vault.(threshold := threshold)) else w
  {}

  /** The admin, and nobody else, sets the rates, each at most a tenth. */
  lemma {:induction false} FeeRatesExactly(w: World, m: Move, w': World, taker: nat, maker: nat)
    requires Step(w, m, w') && m.call == SetFeeRates(taker, maker)
    ensures w' ==
      if (DefaultAdmin, m.tx.sender) in w.exch.roles && taker <= 1000 && maker <= 1000
      then w.(exch := w.exch.(rates := Rates(taker, maker))) else w
  {}

  /** The pauser, and nobody else, pauses and unpauses the exchange. */
  lemma {:induction false} ExchangePauseExactly(w: World, m: Move, w': World)
    requires Step(w, m, w') && (m.call == PauseExchange || m.call == UnpauseExchange)
    ensures w' ==
      if (Pauser, m.tx.sender) in w.exch.roles then w.(exch := w.exch.(paused := m.call == PauseExchange)) else w
  {}

  /** Anyone may advance their own epoch, by one, and nobody else's. */
  lemma {:induction false} CancelAllExactly(w: World, m: Move, w': World)
    requires Step(w, m, w') && m.call == CancelAllOrders
    ensures
      var epoch := if m.tx.sender in w.exch.nonces then w.exch.nonces[m.tx.sender] else 0;
      w' == w.(exch := w.exch.(nonces := w.exch.nonces[m.tx.sender := epoch + 1]))
  {}
}
