/** The optimistic oracle: markets, bonds, dispute windows and payout reports. */
module Oracle {
  import opened Chain
  import opened Ledgers
  import C = Custody

  datatype MarketState = Open | Proposed | Disputed | Resolved

  datatype ResolutionSpec = ResolutionSpec(questionId: nat, outcomeSlotCount: nat, expiry: nat, disputeWindow: nat,
                                           bondAmount: nat)

  type Payouts = seq<uint256>

  datatype Proposal = NoProposal | Proposal(payouts: Payouts)

  /** The payout hash is injective, so the proposal itself stands for it. */
  datatype OptimisticState = OptimisticState(proposal: Proposal, proposeTime: nat, proposer: Address, disputer: Address)

  /** What the conditional-tokens contract was told. */
  datatype Report = Report(marketId: nat, questionId: nat, payouts: Payouts)

  /** Storage that was never written. */
  const NO_SPEC := ResolutionSpec(0, 0, 0, 0, 0)
  const NO_STATE := OptimisticState(NoProposal, 0, Zero, Zero)

  datatype World = World(usdc: C.Balances, specs: map<nat, ResolutionSpec>, states: map<nat, MarketState>,
                         optimistic: map<nat, OptimisticState>, reports: seq<Report>, paused: bool, roles: Grants)

  datatype OracleError =
    | Unauthorized | EnforcedPause | ExpectedPause | InvalidState | NotExpired | DisputeWindowNotPassed
    | DisputeWindowPassed | InvalidPayouts | PayoutsMismatch | ArithmeticOverflow | TransferFailed | CtfReverted

  type Result = Status<OracleError>

  datatype Call =
    // `ctfAccepts`: whether the conditional-tokens contract takes the call made to it.
    | CreateMarket(marketId: nat, spec: ResolutionSpec, ctfAccepts: bool)
    // `approved`: whether the caller lets the oracle pull the bond.
    | ProposeOutcome(marketId: nat, payouts: Payouts, approved: bool)
    | DisputeOutcome(marketId: nat, approved: bool)
    | ResolveDispute(marketId: nat, payouts: Payouts, ctfAccepts: bool)
    | FinalizeOutcome(marketId: nat, payouts: Payouts, ctfAccepts: bool)
    | Pause
    | Unpause

  function SpecOf(specs: map<nat, ResolutionSpec>, id: nat): ResolutionSpec {
    if id in specs then specs[id] else NO_SPEC
  }

  function StateOf(states: map<nat, MarketState>, id: nat): MarketState {
    if id in states then states[id] else Open
  }

  function OptimisticOf(optimistic: map<nat, OptimisticState>, id: nat): OptimisticState {
    if id in optimistic then optimistic[id] else NO_STATE
  }

  function SumPayouts(payouts: Payouts): nat {
    if payouts == [] then 0 else SumPayouts(payouts[..|payouts| - 1]) + payouts[|payouts| - 1]
  }

  function PayoutsVerdict(spec: ResolutionSpec, payouts: Payouts): Result {
    if |payouts| != spec.outcomeSlotCount then Reverted(InvalidPayouts)
    else if SumPayouts(payouts) >= TWO_256 then Reverted(ArithmeticOverflow)
    else if SumPayouts(payouts) == 0 then Reverted(InvalidPayouts)
    else Committed
  }

  function Winner(os: OptimisticState, payouts: Payouts): Address {
    if os.proposal != Proposal(payouts) then os.disputer else os.proposer
  }

  /** How a call ends: the first check that fails, in the order the contract makes them. */
  function Verdict(w: World, tx: Tx, call: Call): Result {
    match call
    case CreateMarket(id, spec, ctfAccepts) =>
      if (MarketCreator, tx.sender) !in w.roles then Reverted(Unauthorized)
      else if w.paused then Reverted(EnforcedPause)
      else if SpecOf(w.specs, id).expiry != 0 then Reverted(InvalidState)
      else if !ctfAccepts then Reverted(CtfReverted)
      else Committed
    case ProposeOutcome(id, payouts, approved) =>
      var spec := SpecOf(w.specs, id);
      if w.paused then Reverted(EnforcedPause)
      else if StateOf(w.states, id) != Open then Reverted(InvalidState)
      else if tx.now < spec.expiry then Reverted(NotExpired)
      else if PayoutsVerdict(spec, payouts).Reverted? then PayoutsVerdict(spec, payouts)
      else if !approved || !C.TokenPays(w.usdc, tx.sender, ORACLE, spec.bondAmount) then Reverted(TransferFailed)
      else Committed
    case DisputeOutcome(id, approved) =>
      var spec, os := SpecOf(w.specs, id), OptimisticOf(w.optimistic, id);
      if w.paused then Reverted(EnforcedPause)
      else if StateOf(w.states, id) != Proposed then Reverted(InvalidState)
      else if os.proposeTime + spec.disputeWindow >= TWO_256 then Reverted(ArithmeticOverflow)
      else if tx.now > os.proposeTime + spec.disputeWindow then Reverted(DisputeWindowPassed)
      else if !approved || !C.TokenPays(w.usdc, tx.sender, ORACLE, spec.bondAmount) then Reverted(TransferFailed)
      else Committed
    case ResolveDispute(id, payouts, ctfAccepts) =>
      var spec, os := SpecOf(w.specs, id), OptimisticOf(w.optimistic, id);
      if (Arbitrator, tx.sender) !in w.roles then Reverted(Unauthorized)
      else if StateOf(w.states, id) != Disputed then Reverted(InvalidState)
      else if PayoutsVerdict(spec, payouts).Reverted? then PayoutsVerdict(spec, payouts)
      else if !ctfAccepts then Reverted(CtfReverted)
      else if 2 * spec.bondAmount >= TWO_256 then Reverted(ArithmeticOverflow)
      else if !C.TokenPays(w.usdc, ORACLE, Winner(os, payouts), 2 * spec.bondAmount) then Reverted(TransferFailed)
      else Committed
    case FinalizeOutcome(id, payouts, ctfAccepts) =>
      var spec, os := SpecOf(w.specs, id), OptimisticOf(w.optimistic, id);
      if w.paused then Reverted(EnforcedPause)
      else if StateOf(w.states, id) != Proposed then Reverted(InvalidState)
      else if os.proposeTime + spec.disputeWindow >= TWO_256 then Reverted(ArithmeticOverflow)
      else if tx.now <= os.proposeTime + spec.disputeWindow then Reverted(DisputeWindowNotPassed)
      else if os.proposal != Proposal(payouts) then Reverted(PayoutsMismatch)
      else if !ctfAccepts then Reverted(CtfReverted)
      else if !C.TokenPays(w.usdc, ORACLE, os.proposer, spec.bondAmount) then Reverted(TransferFailed)
      else Committed
    case Pause =>
      if (Pauser, tx.sender) !in w.roles then Reverted(Unauthorized)
      else if w.paused then Reverted(EnforcedPause)
      else Committed
    case Unpause =>
      if (Pauser, tx.sender) !in w.roles then Reverted(Unauthorized)
      else if !w.paused then Reverted(ExpectedPause)
      else Committed
  }

  /** A market moves to `state`, USDC moves from `from` to `to`, and nothing else changes but `optimistic`. */
  ghost predicate Moved(w: World, id: nat, state: MarketState, from: Address, to: Address, amount: nat, w': World) {
    && w' == w.(states := w.states[id := state], usdc := w'.usdc, optimistic := w'.optimistic, reports := w'.reports)
    && Posted(w.usdc, C.Transfer(from, to, amount), w'.usdc)
  }

  ghost predicate Effect(w: World, tx: Tx, call: Call, w': World) {
    match call
    case CreateMarket(id, spec, _) => w' == w.(specs := w.specs[id := spec])
    case ProposeOutcome(id, payouts, _) =>
      && Moved(w, id, Proposed, tx.sender, ORACLE, SpecOf(w.specs, id).bondAmount, w')
      && w'.optimistic == w.optimistic[id := OptimisticState(Proposal(payouts), tx.now, tx.sender,
          OptimisticOf(w.optimistic, id).disputer)]
      && w'.reports == w.reports
    case DisputeOutcome(id, _) =>
      && Moved(w, id, Disputed, tx.sender, ORACLE, SpecOf(w.specs, id).bondAmount, w')
      && w'.optimistic == w.optimistic[id := OptimisticOf(w.optimistic, id).(disputer := tx.sender)]
      && w'.reports == w.reports
    case ResolveDispute(id, payouts, _) =>
      && Moved(w, id, Resolved, ORACLE, Winner(OptimisticOf(w.optimistic, id), payouts),
          2 * SpecOf(w.specs, id).bondAmount, w')
      && w'.optimistic == w.optimistic
      && w'.reports == w.reports + [Report(id, SpecOf(w.specs, id).questionId, payouts)]
    case FinalizeOutcome(id, payouts, _) =>
      && Moved(w, id, Resolved, ORACLE, OptimisticOf(w.optimistic, id).proposer, SpecOf(w.specs, id).bondAmount, w')
      && w'.optimistic == w.optimistic
      && w'.reports == w.reports + [Report(id, SpecOf(w.specs, id).questionId, payouts)]
    case Pause => w' == w.(paused := true)
    case Unpause => w' == w.(paused := false)
  }

  ghost predicate Next(w: World, tx: Tx, call: Call, r: Result, w': World) {
    && r == Verdict(w, tx, call)
    && if r.Committed? then Effect(w, tx, call, w') else w' == w
  }

  lemma {:induction false} PartialSums(payouts: Payouts, n: nat)
    requires n <= |payouts|
    ensures SumPayouts(payouts[..n]) <= SumPayouts(payouts)
    decreases |payouts|
  {
    if n < |payouts| {
      PartialSums(payouts[..|payouts| - 1], n);
      assert payouts[..|payouts| - 1][..n] == payouts[..n];
    } else {
      assert payouts[..n] == payouts;
    }
  }

  class Oracle {
    const usdc: C.Token
    var specs: map<nat, ResolutionSpec>
    var states: map<nat, MarketState>
    var optimisticStates: map<nat, OptimisticState>
    var reports: seq<Report>  // the calls made to `ctf.reportPayouts`
    var paused: bool
    var roles: Grants

    function State(): World
      reads this, usdc
    {
      World(usdc.balances, specs, states, optimisticStates, reports, paused, roles)
    }

    constructor (usdc: C.Token, admin: Address)
      ensures this.usdc == usdc
      ensures State() == World(usdc.balances, map[], map[], map[], [], false, {(DefaultAdmin, admin)})
    {
      this.usdc := usdc;
      specs, states, optimisticStates, reports := map[], map[], map[], [];
      paused, roles := false, {(DefaultAdmin, admin)};
    }

    method CreateMarket(tx: Tx, marketId: nat, spec: ResolutionSpec, ctfAccepts: bool) returns (r: Result)
      modifies this
      ensures Next(old(State()), tx, Call.CreateMarket(marketId, spec, ctfAccepts), r, State())
    {
      if (MarketCreator, tx.sender) !in roles { return Reverted(Unauthorized); }
      if paused { return Reverted(EnforcedPause); }
      if SpecOf(specs, marketId).expiry != 0 { return Reverted(InvalidState); }
      if !ctfAccepts { return Reverted(CtfReverted); }
      specs := specs[marketId := spec];
      return Committed;
    }

    method ProposeOutcome(tx: Tx, marketId: nat, payouts: Payouts, approved: bool) returns (r: Result)
      modifies this, usdc
      ensures Next(old(State()), tx, Call.ProposeOutcome(marketId, payouts, approved), r, State())
    {
      if paused { return Reverted(EnforcedPause); }
      var spec := SpecOf(specs, marketId);
      if StateOf(states, marketId) != Open { return Reverted(InvalidState); }
      if tx.now < spec.expiry { return Reverted(NotExpired); }
      r := ValidatePayouts(spec, payouts);
      if r.Reverted? { return; }
      if !approved { return Reverted(TransferFailed); }
      var ok := usdc.TransferFrom(tx.sender, ORACLE, spec.bondAmount);
      if !ok { return Reverted(TransferFailed); }
      states := states[marketId := Proposed];
      var os := OptimisticOf(optimisticStates, marketId);
      optimisticStates := optimisticStates[marketId := os.(proposal := Proposal(payouts), proposer := tx.sender,
          proposeTime := tx.now)];
      return Committed;
    }

    method DisputeOutcome(tx: Tx, marketId: nat, approved: bool) returns (r: Result)
      modifies this, usdc
      ensures Next(old(State()), tx, Call.DisputeOutcome(marketId, approved), r, State())
    {
      if paused { return Reverted(EnforcedPause); }
      if StateOf(states, marketId) != Proposed { return Reverted(InvalidState); }
      var spec, os := SpecOf(specs, marketId), OptimisticOf(optimisticStates, marketId);
      if os.proposeTime + spec.disputeWindow >= TWO_256 { return Reverted(ArithmeticOverflow); }
      if tx.now > os.proposeTime + spec.disputeWindow { return Reverted(DisputeWindowPassed); }
      if !approved { return Reverted(TransferFailed); }
      var ok := usdc.TransferFrom(tx.sender, ORACLE, spec.bondAmount);
      if !ok { return Reverted(TransferFailed); }
      states := states[marketId := Disputed];
      optimisticStates := optimisticStates[marketId := os.(disputer := tx.sender)];
      return Committed;
    }

    method ResolveDispute(tx: Tx, marketId: nat, payouts: Payouts, ctfAccepts: bool) returns (r: Result)
      modifies this, usdc
      ensures Next(old(State()), tx, Call.ResolveDispute(marketId, payouts, ctfAccepts), r, State())
    {
      if (Arbitrator, tx.sender) !in roles { return Reverted(Unauthorized); }
      if StateOf(states, marketId) != Disputed { return Reverted(InvalidState); }
      var spec, os := SpecOf(specs, marketId), OptimisticOf(optimisticStates, marketId);
      r := ValidatePayouts(spec, payouts);
      if r.Reverted? { return; }
      var disputerRight := os.proposal != Proposal(payouts);
      var winner := if disputerRight then os.disputer else os.proposer;
      if !ctfAccepts { return Reverted(CtfReverted); }
      if 2 * spec.bondAmount >= TWO_256 { return Reverted(ArithmeticOverflow); }
      r := ReportAndPay(marketId, spec.questionId, payouts, winner, 2 * spec.bondAmount);
    }

    method FinalizeOutcome(tx: Tx, marketId: nat, payouts: Payouts, ctfAccepts: bool) returns (r: Result)
      modifies this, usdc
      ensures Next(old(State()), tx, Call.FinalizeOutcome(marketId, payouts, ctfAccepts), r, State())
    {
      if paused { return Reverted(EnforcedPause); }
      if StateOf(states, marketId) != Proposed { return Reverted(InvalidState); }
      var spec, os := SpecOf(specs, marketId), OptimisticOf(optimisticStates, marketId);
      if os.proposeTime + spec.disputeWindow >= TWO_256 { return Reverted(ArithmeticOverflow); }
      if tx.now <= os.proposeTime + spec.disputeWindow { return Reverted(DisputeWindowNotPassed); }
      if os.proposal != Proposal(payouts) { return Reverted(PayoutsMismatch); }
      if !ctfAccepts { return Reverted(CtfReverted); }
      r := ReportAndPay(marketId, spec.questionId, payouts, os.proposer, spec.bondAmount);
    }

    /** The common end of both resolutions: mark the market resolved, report, pay; all or nothing. */
    method ReportAndPay(marketId: nat, questionId: nat, payouts: Payouts, to: Address, amount: nat) returns (r: Result)
      modifies this`states, this`reports, usdc
      ensures r == if C.TokenPays(old(usdc.balances), ORACLE, to, amount) then Committed else Reverted(TransferFailed)
      ensures
        if r.Committed? then
          && Moved(old(State()), marketId, Resolved, ORACLE, to, amount, State())
          && State().optimistic == old(State()).optimistic
          && State().reports == old(State()).reports + [Report(marketId, questionId, payouts)]
        else State() == old(State())
    {
      var before, told := states, reports;
      states := states[marketId := Resolved];
      reports := reports + [Report(marketId, questionId, payouts)];
      var ok := usdc.TransferFrom(ORACLE, to, amount);
      if !ok {
        states, reports := before, told;
        return Reverted(TransferFailed);
      }
      return Committed;
    }

    static method ValidatePayouts(spec: ResolutionSpec, payouts: Payouts) returns (r: Result)
      ensures r == PayoutsVerdict(spec, payouts)
    {
      if |payouts| != spec.outcomeSlotCount { return Reverted(InvalidPayouts); }
      var sum := 0;
      for i := 0 to |payouts|
        invariant sum == SumPayouts(payouts[..i]) < TWO_256
      {
        assert payouts[..i + 1][..i] == payouts[..i];
        sum := sum + payouts[i];
        if sum >= TWO_256 {
          PartialSums(payouts, i + 1);
          return Reverted(ArithmeticOverflow);
        }
      }
      assert payouts[..|payouts|] == payouts;
      if sum == 0 { return Reverted(InvalidPayouts); }
      return Committed;
    }

    method Pause(tx: Tx) returns (r: Result)
      modifies this
      ensures Next(old(State()), tx, Call.Pause, r, State())
    {
      if (Pauser, tx.sender) !in roles { return Reverted(Unauthorized); }
      if paused { return Reverted(EnforcedPause); }
      paused := true;
      return Committed;
    }

    method Unpause(tx: Tx) returns (r: Result)
      modifies this
      ensures Next(old(State()), tx, Call.Unpause, r, State())
    {
      if (Pauser, tx.sender) !in roles { return Reverted(Unauthorized); }
      if !paused { return Reverted(ExpectedPause); }
      paused := false;
      return Committed;
    }
  }
}
