/** The USDC vault, and the token it holds. */
module Custody {
  import opened Chain
  import opened Ledgers

  const DAY: nat := 86_400
  const MIN_INACTIVITY_THRESHOLD: nat := DAY
  const MAX_INACTIVITY_THRESHOLD: nat := 90 * DAY

  type Balances = map<Address, nat>

  datatype VaultError =
    | ZeroAmount | ZeroAddress | InsufficientBalance | AuthorizationExpired
    | InvalidWithdrawalSigner | DeltasDoNotConserve | BatchAlreadyApplied | OperatorActive
    | InactivityThresholdOutOfBounds | Unauthorized | EnforcedPause | ExpectedPause | TransferFailed
    | ArithmeticOverflow

  /**
   The operator's signature over one withdrawal message.  Over any other message it recovers to
   nobody who holds a role.
   */
  datatype Authorization = Authorization(key: nat, account: Address, amount: nat, nonce: nat, deadline: nat)

  function Authorizer(auth: Authorization, account: Address, amount: nat, nonce: nat, deadline: nat): Recovery {
    if auth.account == account && auth.amount == amount && auth.nonce == nonce && auth.deadline == deadline
    then Recovered(Wallet(auth.key))
    else Unrecoverable
  }

  /** The vault's storage, together with the token ledger it is paid in. */
  datatype Vault = Vault(usdc: Balances, balances: Balances, nonces: map<Address, nat>, applied: set<nat>,
                         lastActivity: nat, threshold: nat, paused: bool, roles: Grants)

  datatype VaultCall =
    | Deposit(amount: nat, approved: bool)
    | Withdraw(amount: nat, deadline: nat, auth: Authorization)
    | ForcedWithdrawal(to: Address)
    | ApplyNetDeltas(batchId: nat, deltas: seq<Entry<Address>>)
    | Heartbeat
    | Pause
    | Unpause
    | SetThreshold(threshold: nat)

  // ---- What a call does ----

  /** The two postings of a transfer. */
  function Transfer<K>(from: K, to: K, amount: nat): (es: seq<Entry<K>>)
  {
    [Entry(from, -(amount as int)), Entry(to, amount)]
  }

  predicate TokenPays(usdc: Balances, from: Address, to: Address, amount: nat) {
    to != Zero && Get(usdc, from) >= amount
  }

  predicate OperatorAbsent(v: Vault, now: nat) {
    now - v.lastActivity > v.threshold
  }

  /** The running sum of the deltas never leaves `int256`. */
  predicate SumFits(deltas: seq<Entry<Address>>) {
    deltas == [] || (SumFits(deltas[..|deltas| - 1]) && Signed256(SumAll(deltas)))
  }

  /** How one posting against a balance ends; negating the least `int256` overflows too. */
  function PostingVerdict(balance: int, amount: int): Status<VaultError> {
    if (amount > 0 && balance + amount >= TWO_256) || amount <= -(TWO_255 as int) then Reverted(ArithmeticOverflow)
    else if balance + amount < 0 then Reverted(InsufficientBalance)
    else Committed
  }

  /** The first posting to fail decides. */
  function PostingsVerdict(m: map<Address, int>, es: seq<Entry<Address>>): (r: Status<VaultError>)
    ensures r == Committed || r == Reverted(InsufficientBalance) || r == Reverted(ArithmeticOverflow)
  {
    if es == [] then Committed
    else
      var done, last := es[..|es| - 1], es[|es| - 1];
      var r := PostingsVerdict(m, done);
      if r.Reverted? then r else PostingVerdict(Get(m, last.account) + SumOf(done, last.account), last.amount)
  }

  /** No posting, taken in order, leaves its 256-bit type. */
  predicate PostingsFit(m: map<Address, int>, es: seq<Entry<Address>>) {
    es == [] ||
    (var done, last := es[..|es| - 1], es[|es| - 1];
     && PostingsFit(m, done)
     && last.amount > -(TWO_255 as int)
     && (last.amount > 0 ==> Get(m, last.account) + SumOf(done, last.account) + last.amount < TWO_256))
  }

  /** The loop goes through exactly when nothing overflows and nothing is overdrawn on the way. */
  lemma {:induction false} PostingsCommit(m: map<Address, int>, es: seq<Entry<Address>>)
    ensures PostingsVerdict(m, es).Committed? <==> PostingsFit(m, es) && Payable(m, es)
  {
    if es == [] {
    } else {
      PostingsCommit(m, es[..|es| - 1]);
    }
  }

  /** The first posting to fail decides for the whole list, whatever follows it. */
  lemma {:induction false} FirstPostingFails(m: map<Address, int>, es: seq<Entry<Address>>, n: nat)
    requires n <= |es| && PostingsVerdict(m, es[..n]).Reverted?
    ensures PostingsVerdict(m, es) == PostingsVerdict(m, es[..n])
    decreases |es|
  {
    if n < |es| {
      assert es[..|es| - 1][..n] == es[..n];
      FirstPostingFails(m, es[..|es| - 1], n);
    } else {
      assert es[..n] == es;
    }
  }

  /** Where the loop stands decides how the next posting ends. */
  lemma {:induction false} PostingNext(m: map<Address, int>, es: seq<Entry<Address>>, i: nat, mid: map<Address, int>)
    requires i < |es| && Posted(m, es[..i], mid) && PostingsVerdict(m, es[..i]).Committed?
    ensures PostingsVerdict(m, es[..i + 1]) == PostingVerdict(Get(mid, es[i].account), es[i].amount)
  {
    assert es[..i + 1][..i] == es[..i];
    assert Get(mid, es[i].account) == Get(m, es[i].account) + SumOf(es[..i], es[i].account);
  }

  lemma {:induction false} SumFitsPrefix(deltas: seq<Entry<Address>>, n: nat)
    requires n <= |deltas|
    ensures SumFits(deltas) ==> SumFits(deltas[..n])
    decreases |deltas|
  {
    if n < |deltas| {
      assert deltas[..|deltas| - 1][..n] == deltas[..n];
      SumFitsPrefix(deltas[..|deltas| - 1], n);
    } else {
      assert deltas[..n] == deltas;
    }
  }

  /** How a call ends.  It names the first check that fails, in the order the contract makes them. */
  ghost function Verdict(v: Vault, tx: Tx, call: VaultCall): Status<VaultError> {
    match call
    case Deposit(amount, approved) =>
      if v.paused then Reverted(EnforcedPause)
      else if amount == 0 then Reverted(ZeroAmount)
      else if !approved || !TokenPays(v.usdc, tx.sender, VAULT, amount) then Reverted(TransferFailed)
      else if tx.sender == VAULT then Reverted(ZeroAmount)
      else if Get(v.balances, tx.sender) + amount >= TWO_256 then Reverted(ArithmeticOverflow)
      else Committed
    case Withdraw(amount, deadline, auth) =>
      if v.paused then Reverted(EnforcedPause)
      else if amount == 0 then Reverted(ZeroAmount)
      else if tx.now > deadline then Reverted(AuthorizationExpired)
      else
        var signer := Authorizer(auth, tx.sender, amount, NonceOf(v.nonces, tx.sender), deadline);
        if !signer.Recovered? || (WithdrawalSigner, signer.signer) !in v.roles then Reverted(InvalidWithdrawalSigner)
        else Payment(v, tx.sender, tx.sender, amount)
    case ForcedWithdrawal(to) =>
      if to == Zero then Reverted(ZeroAddress)
      else if !OperatorAbsent(v, tx.now) then Reverted(OperatorActive)
      else if Get(v.balances, tx.sender) == 0 then Reverted(ZeroAmount)
      else Payment(v, tx.sender, to, Get(v.balances, tx.sender))
    case ApplyNetDeltas(batchId, deltas) =>
      if v.paused then Reverted(EnforcedPause)
      else if (Settlement, tx.sender) !in v.roles then Reverted(Unauthorized)
      else if batchId in v.applied then Reverted(BatchAlreadyApplied)
      else if !SumFits(deltas) then Reverted(ArithmeticOverflow)
      else if SumAll(deltas) != 0 then Reverted(DeltasDoNotConserve)
      else PostingsVerdict(v.balances, deltas)
    case Heartbeat =>
      if v.paused then Reverted(EnforcedPause)
      else if (Settlement, tx.sender) !in v.roles then Reverted(Unauthorized)
      else Committed
    case Pause =>
      if (Pauser, tx.sender) !in v.roles then Reverted(Unauthorized)
      else if v.paused then Reverted(EnforcedPause)
      else Committed
    case Unpause =>
      if (Pauser, tx.sender) !in v.roles then Reverted(Unauthorized)
      else if !v.paused then Reverted(ExpectedPause)
      else Committed
    case SetThreshold(threshold) =>
      if (DefaultAdmin, tx.sender) !in v.roles then Reverted(Unauthorized)
      else if !(MIN_INACTIVITY_THRESHOLD <= threshold <= MAX_INACTIVITY_THRESHOLD)
      then Reverted(InactivityThresholdOutOfBounds)
      else Committed
  }

  function NonceOf(nonces: map<Address, nat>, a: Address): nat {
    if a in nonces then nonces[a] else 0
  }

  function Payment(v: Vault, account: Address, to: Address, amount: nat): Status<VaultError> {
    if Get(v.balances, account) < amount then Reverted(InsufficientBalance)
    else if !TokenPays(v.usdc, VAULT, to, amount) then Reverted(TransferFailed)
    else Committed
  }

  /** `account` is debited `amount` and `to` is sent as much USDC; nothing else moves. */
  ghost predicate Paid(v: Vault, account: Address, to: Address, amount: nat, v': Vault) {
    && Posted(v.balances, [Entry(account, -(amount as int))], v'.balances)
    && Posted(v.usdc, Transfer(VAULT, to, amount), v'.usdc)
  }

  /** The state a committed call leaves, field by field. */
  ghost predicate Effect(v: Vault, tx: Tx, call: VaultCall, v': Vault) {
    match call
    case Deposit(amount, _) =>
      && v' == v.(usdc := v'.usdc, balances := v'.balances)
      && Posted(v.balances, [Entry(tx.sender, amount)], v'.balances)
      && Posted(v.usdc, Transfer(tx.sender, VAULT, amount), v'.usdc)
    case Withdraw(amount, _, _) =>
      && v' == v.(usdc := v'.usdc, balances := v'.balances,
                  nonces := v.nonces[tx.sender := NonceOf(v.nonces, tx.sender) + 1])
      && Paid(v, tx.sender, tx.sender, amount, v')
    case ForcedWithdrawal(to) =>
      && v' == v.(usdc := v'.usdc, balances := v'.balances)
      && Get(v.balances, tx.sender) >= 0
      && Paid(v, tx.sender, to, Get(v.balances, tx.sender), v')
    case ApplyNetDeltas(batchId, deltas) =>
      && v' == v.(balances := v'.balances, applied := v.applied + {batchId}, lastActivity := tx.now)
      && Posted(v.balances, deltas, v'.balances)
    case Heartbeat => v' == v.(lastActivity := tx.now)
    case Pause => v' == v.(paused := true)
    case Unpause => v' == v.(paused := false)
    case SetThreshold(threshold) => v' == v.(threshold := threshold)
  }

  /** One call to the vault: a revert changes nothing. */
  ghost predicate Next(v: Vault, tx: Tx, call: VaultCall, r: Status<VaultError>, v': Vault) {
    && r == Verdict(v, tx, call)
    && if r.Committed? then Effect(v, tx, call, v') else v' == v
  }

  /** What a transfer posts to `k`. */
  lemma {:induction false} TransferSums<K>(from: K, to: K, amount: nat, k: K)
    ensures SumOf(Transfer(from, to, amount), k)
         == (if from == k then -(amount as int) else 0) + (if to == k then amount else 0)
    ensures SumAll(Transfer(from, to, amount)) == 0
  {
    var debit := Entry(from, -(amount as int));
    assert Transfer(from, to, amount) == [debit] + [Entry(to, amount)];
    SumOfOne(debit, k);
    SumOfSnoc([debit], Entry(to, amount), k);
    SumAllSnoc([debit], Entry(to, amount));
  }

  // ---- The token ----

  class Token {
    var balances: Balances

    constructor (balances: Balances)
      ensures this.balances == balances
    {
      this.balances := balances;
    }

    method TransferFrom(from: Address, to: Address, amount: nat) returns (ok: bool)
      modifies this
      ensures ok <==> TokenPays(old(balances), from, to, amount)
      ensures if ok then Posted(old(balances), Transfer(from, to, amount), balances)
              else balances == old(balances)
    {
      if to == Zero || Get(balances, from) < amount {
        return false;
      }
      balances := balances[from := Get(balances, from) - amount];
      balances := balances[to := Get(balances, to) + amount];
      forall k ensures Get(balances, k) == Get(old(balances), k) + SumOf(Transfer(from, to, amount), k) {
        TransferSums(from, to, amount, k);
      }
      return true;
    }
  }

  // ---- The vault ----

  class Custody {
    const usdc: Token
    var balances: Balances
    var withdrawalNonce: map<Address, nat>
    var appliedBatches: set<nat>
    var lastOperatorActivity: nat
    var operatorInactivityThreshold: nat
    var paused: bool
    var roles: Grants

    function State(): Vault
      reads this, usdc
    {
      Vault(usdc.balances, balances, withdrawalNonce, appliedBatches, lastOperatorActivity,
            operatorInactivityThreshold, paused, roles)
    }

    constructor (usdc: Token, admin: Address, threshold: nat, now: nat)
      requires admin != Zero && MIN_INACTIVITY_THRESHOLD <= threshold <= MAX_INACTIVITY_THRESHOLD
      ensures this.usdc == usdc
      ensures State() == Vault(usdc.balances, map[], map[], {}, now, threshold, false, {(DefaultAdmin, admin)})
    {
      this.usdc := usdc;
      balances, withdrawalNonce, appliedBatches := map[], map[], {};
      lastOperatorActivity, operatorInactivityThreshold := now, threshold;
      paused, roles := false, {(DefaultAdmin, admin)};
    }

    /** Undoes everything a reverting transaction did to the vault's own storage. */
    method Rollback(to: Vault)
      modifies this
      ensures State() == to.(usdc := usdc.balances)
    {
      balances, withdrawalNonce, appliedBatches := to.balances, to.nonces, to.applied;
      lastOperatorActivity, operatorInactivityThreshold := to.lastActivity, to.threshold;
      paused, roles := to.paused, to.roles;
    }

    method Deposit(tx: Tx, amount: nat, approved: bool) returns (r: Status<VaultError>)
      modifies this, usdc
      ensures Next(old(State()), tx, VaultCall.Deposit(amount, approved), r, State())
    {
      if paused { return Reverted(EnforcedPause); }
      if amount == 0 { return Reverted(ZeroAmount); }
      var before := Get(usdc.balances, VAULT);
      var was := usdc.balances;
      var ok := approved;
      if ok {
        ok := usdc.TransferFrom(tx.sender, VAULT, amount);
      }
      if !ok { return Reverted(TransferFailed); }
      assert Get(usdc.balances, VAULT) == Get(was, VAULT) + SumOf(Transfer(tx.sender, VAULT, amount), VAULT);
      TransferSums(tx.sender, VAULT, amount, VAULT);
      var received := Get(usdc.balances, VAULT) - before;
      if received == 0 {
        // Only a transfer to itself is received as nothing, and that one moved nothing.
        usdc.balances := was;
        return Reverted(ZeroAmount);
      }
      if Get(balances, tx.sender) + received >= TWO_256 {
        usdc.balances := was;
        return Reverted(ArithmeticOverflow);
      }
      balances := balances[tx.sender := Get(balances, tx.sender) + received];
      forall k ensures Get(balances, k) == Get(old(balances), k) + SumOf([Entry(tx.sender, amount as int)], k) {
        SumOfOne(Entry(tx.sender, amount as int), k);
      }
      return Committed;
    }

    method Withdraw(tx: Tx, amount: nat, deadline: nat, auth: Authorization) returns (r: Status<VaultError>)
      modifies this, usdc
      ensures Next(old(State()), tx, VaultCall.Withdraw(amount, deadline, auth), r, State())
    {
      if paused { return Reverted(EnforcedPause); }
      if amount == 0 { return Reverted(ZeroAmount); }
      if tx.now > deadline { return Reverted(AuthorizationExpired); }
      var nonce := NonceOf(withdrawalNonce, tx.sender);
      var signer := Authorizer(auth, tx.sender, amount, nonce, deadline);
      if !signer.Recovered? || (WithdrawalSigner, signer.signer) !in roles {
        return Reverted(InvalidWithdrawalSigner);
      }
      var before := withdrawalNonce;
      withdrawalNonce := withdrawalNonce[tx.sender := nonce + 1];
      r := DebitAndPay(tx.sender, tx.sender, amount);
      if r.Reverted? {
        withdrawalNonce := before;
      }
    }

    method ExecuteForcedWithdrawal(tx: Tx, to: Address) returns (r: Status<VaultError>)
      modifies this, usdc
      ensures Next(old(State()), tx, ForcedWithdrawal(to), r, State())
    {
      if to == Zero { return Reverted(ZeroAddress); }
      if !(tx.now - lastOperatorActivity > operatorInactivityThreshold) { return Reverted(OperatorActive); }
      var amount := Get(balances, tx.sender);
      if amount == 0 { return Reverted(ZeroAmount); }
      r := DebitAndPay(tx.sender, to, amount);
    }

    method ApplyNetDeltas(tx: Tx, batchId: nat, deltas: seq<Entry<Address>>) returns (r: Status<VaultError>)
      modifies this
      ensures Next(old(State()), tx, VaultCall.ApplyNetDeltas(batchId, deltas), r, State())
    {
      if paused { return Reverted(EnforcedPause); }
      if (Settlement, tx.sender) !in roles { return Reverted(Unauthorized); }
      if batchId in appliedBatches { return Reverted(BatchAlreadyApplied); }
      var before := State();
      appliedBatches := appliedBatches + {batchId};
      lastOperatorActivity := tx.now;
      var fits, net := NetOf(deltas);
      if !fits {
        Rollback(before);
        return Reverted(ArithmeticOverflow);
      }
      if net != 0 {
        Rollback(before);
        return Reverted(DeltasDoNotConserve);
      }
      r := PostAll(deltas);
      if r.Reverted? {
        Rollback(before);
      }
    }

    /** First loop of `applyNetDeltas`: what the deltas come to, unless the running sum overflows. */
    static method NetOf(deltas: seq<Entry<Address>>) returns (fits: bool, net: int)
      ensures fits <==> SumFits(deltas)
      ensures fits ==> net == SumAll(deltas)
    {
      net := 0;
      for i := 0 to |deltas|
        invariant net == SumAll(deltas[..i]) && SumFits(deltas[..i])
      {
        assert deltas[..i + 1] == deltas[..i] + [deltas[i]];
        SumAllSnoc(deltas[..i], deltas[i]);
        net := net + deltas[i].amount;
        if !Signed256(net) {
          SumFitsPrefix(deltas, i + 1);
          return false, net;
        }
      }
      assert deltas[..|deltas|] == deltas;
      fits := true;
    }

    /** Second loop of `applyNetDeltas`: credits and debits, one after another. */
    method PostAll(deltas: seq<Entry<Address>>) returns (r: Status<VaultError>)
      modifies this`balances
      ensures r == PostingsVerdict(old(balances), deltas)
      ensures r.Committed? ==> Posted(old(balances), deltas, balances)
    {
      ghost var start := balances;
      for i := 0 to |deltas|
        invariant Posted(start, deltas[..i], balances) && PostingsVerdict(start, deltas[..i]).Committed?
      {
        ghost var mid := balances;
        var account, amount := deltas[i].account, deltas[i].amount;
        r := PostOne(account, amount);
        PostingNext(start, deltas, i, mid);
        if r.Reverted? {
          FirstPostingFails(start, deltas, i + 1);
          return;
        }
        PostNext(start, deltas, i, mid, balances);
      }
      assert deltas[..|deltas|] == deltas;
      r := Committed;
    }

    /** One turn of that loop. */
    method PostOne(account: Address, amount: int) returns (r: Status<VaultError>)
      modifies this`balances
      ensures r == PostingVerdict(Get(old(balances), account), amount)
      ensures r.Committed? ==> Get(balances, account) == Get(old(balances), account) + amount
      ensures balances == old(balances) || balances == old(balances)[account := Get(balances, account)]
    {
      if amount != 0 {
        if amount > 0 {
          if Get(balances, account) + amount >= TWO_256 { return Reverted(ArithmeticOverflow); }
          balances := balances[account := Get(balances, account) + amount];
        } else {
          if !Signed256(-amount) { return Reverted(ArithmeticOverflow); }
          var debit := -amount;
          var bal := Get(balances, account);
          if bal < debit { return Reverted(InsufficientBalance); }
          balances := balances[account := bal - debit];
        }
      }
      return Committed;
    }

    method Heartbeat(tx: Tx) returns (r: Status<VaultError>)
      modifies this
      ensures Next(old(State()), tx, VaultCall.Heartbeat, r, State())
    {
      if paused { return Reverted(EnforcedPause); }
      if (Settlement, tx.sender) !in roles { return Reverted(Unauthorized); }
      lastOperatorActivity := tx.now;
      return Committed;
    }

    method Pause(tx: Tx) returns (r: Status<VaultError>)
      modifies this
      ensures Next(old(State()), tx, VaultCall.Pause, r, State())
    {
      if (Pauser, tx.sender) !in roles { return Reverted(Unauthorized); }
      if paused { return Reverted(EnforcedPause); }
      paused := true;
      return Committed;
    }

    method Unpause(tx: Tx) returns (r: Status<VaultError>)
      modifies this
      ensures Next(old(State()), tx, VaultCall.Unpause, r, State())
    {
      if (Pauser, tx.sender) !in roles { return Reverted(Unauthorized); }
      if !paused { return Reverted(ExpectedPause); }
      paused := false;
      return Committed;
    }

    method SetOperatorInactivityThreshold(tx: Tx, newThreshold: nat) returns (r: Status<VaultError>)
      modifies this
      ensures Next(old(State()), tx, SetThreshold(newThreshold), r, State())
    {
      if (DefaultAdmin, tx.sender) !in roles { return Reverted(Unauthorized); }
      if newThreshold < MIN_INACTIVITY_THRESHOLD || newThreshold > MAX_INACTIVITY_THRESHOLD {
        return Reverted(InactivityThresholdOutOfBounds);
      }
      operatorInactivityThreshold := newThreshold;
      return Committed;
    }

    method DebitAndPay(account: Address, to: Address, amount: nat) returns (r: Status<VaultError>)
      modifies this`balances, usdc
      ensures r == Payment(old(State()), account, to, amount)
      ensures if r.Committed? then Paid(old(State()), account, to, amount, State())
              else State() == old(State())
    {
      var bal := Get(balances, account);
      if bal < amount { return Reverted(InsufficientBalance); }
      var before := balances;
      balances := balances[account := bal - amount];
      var ok := usdc.TransferFrom(VAULT, to, amount);
      if !ok {
        balances := before;
        return Reverted(TransferFailed);
      }
      forall k ensures Get(balances, k) == Get(before, k) + SumOf([Entry(account, -(amount as int))], k) {
        SumOfOne(Entry(account, -(amount as int)), k);
      }
      return Committed;
    }
  }
}
