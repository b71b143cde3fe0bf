/** Whole runs of the oracle over any interleaving of markets that share one pool of bonds. */
module OracleRuns {
  import opened Chain
  import opened Ledgers
  import opened Oracle
  import C = Custody

  datatype Action =
    | ToOracle(call: Call)
    | SetRoles(roles: Grants)
    // Any USDC movement the oracle does not make itself; it can only raise what the oracle holds.
    | TokenActivity(usdc: C.Balances)

  datatype Move = Move(tx: Tx, action: Action)

  ghost predicate Commits(w: World, m: Move) {
    match m.action
    case ToOracle(call) => Verdict(w, m.tx, call).Committed?
    case SetRoles(_) => true
    case TokenActivity(usdc) => Get(usdc, ORACLE) >= Get(w.usdc, ORACLE)
  }

  ghost predicate Changes(w: World, m: Move, w': World) {
    match m.action
    case ToOracle(call) => Effect(w, m.tx, call, w')
    case SetRoles(roles) => w' == w.(roles := roles)
    case TokenActivity(usdc) => w' == w.(usdc := usdc)
  }

  /** Anyone but the oracle itself may call; nobody calls from the zero address. */
  ghost predicate Step(w: World, m: Move, w': World) {
    && m.tx.sender != ORACLE && m.tx.sender != Zero
    && if Commits(w, m) then Changes(w, m, w') else w' == w
  }

  ghost predicate IsRun(ws: seq<World>, ms: seq<Move>) {
    && |ws| == |ms| + 1
    && forall i | 0 <= i < |ms| :: Step(ws[i], ms[i], ws[i + 1])
  }

  /** Every market is created with an expiry. */
  ghost predicate Dated(ms: seq<Move>) {
    forall i | 0 <= i < |ms| :: DatedMove(ms[i])
  }

  predicate DatedMove(m: Move) {
    m.action.ToOracle? && m.action.call.CreateMarket? ==> m.action.call.spec.expiry != 0
  }

  /** The market a move is about. */
  predicate About(m: Move, id: nat) {
    && m.action.ToOracle? && !m.action.call.Pause? && !m.action.call.Unpause?
    && m.action.call.marketId == id
  }

  // ---- Bonds ----

  /** What the oracle owes on a market: one bond once proposed, two once disputed. */
  function Owed(w: World, id: nat): nat {
    Bonds(StateOf(w.states, id), SpecOf(w.specs, id).bondAmount)
  }

  function Bonds(state: MarketState, bond: nat): nat {
    match state
    case Proposed => bond
    case Disputed => 2 * bond
    case _ => 0
  }

  function Obligations(w: World): map<nat, nat> {
    map id | id in w.states :: Owed(w, id)
  }

  ghost function TotalOwed(w: World): int {
    Total(Obligations(w))
  }

  /** USDC the oracle holds beyond the bonds it owes. */
  ghost function Surplus(w: World): int {
    Get(w.usdc, ORACLE) - TotalOwed(w)
  }

  /** Bonds come from, and go back to, real parties. */
  ghost predicate PartiesOk(w: World, id: nat) {
    var os := OptimisticOf(w.optimistic, id);
    && (StateOf(w.states, id) != Open ==> os.proposer != Zero && os.proposer != ORACLE)
    && (StateOf(w.states, id) == Disputed ==> os.disputer != Zero && os.disputer != ORACLE)
  }

  ghost predicate AllParties(w: World) {
    forall id: nat :: PartiesOk(w, id)
  }

  /** Markets have an expiry; those that left OPEN carry a valid proposal and real parties. */
  ghost predicate MarketOk(w: World, id: nat) {
    var spec, os := SpecOf(w.specs, id), OptimisticOf(w.optimistic, id);
    && PartiesOk(w, id)
    && (id in w.specs ==> spec.expiry != 0)
    && (StateOf(w.states, id) != Open ==>
          && id in w.specs
          && os.proposal.Proposal? && PayoutsVerdict(spec, os.proposal.payouts).Committed?)
  }

  ghost predicate MarketsOk(w: World) {
    forall id: nat :: MarketOk(w, id)
  }

  /** A call changes the storage of the market it names and of no other. */
  ghost predicate SameMarket(w: World, w': World, id: nat) {
    && (id in w'.specs <==> id in w.specs)
    && SpecOf(w'.specs, id) == SpecOf(w.specs, id)
    && StateOf(w'.states, id) == StateOf(w.states, id)
    && OptimisticOf(w'.optimistic, id) == OptimisticOf(w.optimistic, id)
  }

  lemma {:induction false} CallKeepsOthers(w: World, tx: Tx, call: Call, w': World, id: nat)
    requires Effect(w, tx, call, w') && (call.Pause? || call.Unpause? || call.marketId != id)
    ensures SameMarket(w, w', id)
  {}

  lemma {:induction false} OtherMarketsKept(w: World, m: Move, w': World, id: nat)
    requires Step(w, m, w') && !About(m, id)
    ensures SameMarket(w, w', id)
  {
    if Commits(w, m) && m.action.ToOracle? {
      CallKeepsOthers(w, m.tx, m.action.call, w', id);
    }
  }

  /** Only a created market can be proposed on: no payout vector fits an absent specification. */
  lemma {:induction false} ProposedWasCreated(w: World, tx: Tx, id: nat, payouts: Payouts, approved: bool)
    requires Verdict(w, tx, ProposeOutcome(id, payouts, approved)).Committed?
    ensures id in w.specs
  {
    NothingFitsNoSpec(payouts);
  }

  lemma {:induction false} NothingFitsNoSpec(payouts: Payouts)
    ensures PayoutsVerdict(NO_SPEC, payouts).Reverted?
  {
    if |payouts| == 0 {
      assert SumPayouts(payouts) == 0;
    }
  }

  lemma {:induction false} ThisMarketOk(w: World, m: Move, w': World)
    requires Step(w, m, w') && Commits(w, m) && DatedMove(m)
    requires m.action.ToOracle? && !m.action.call.Pause? && !m.action.call.Unpause?
    requires MarketOk(w, m.action.call.marketId)
    ensures MarketOk(w', m.action.call.marketId)
  {
    match m.action.call
    case ProposeOutcome(id, payouts, approved) => ProposedWasCreated(w, m.tx, id, payouts, approved);
    case _ =>
  }

  lemma {:induction false} StepMarketsOk(w: World, m: Move, w': World)
    requires Step(w, m, w') && MarketsOk(w) && DatedMove(m)
    ensures MarketsOk(w')
  {
    forall id: nat ensures MarketOk(w', id) {
      assert MarketOk(w, id);
      if !About(m, id) {
        OtherMarketsKept(w, m, w', id);
      } else if Commits(w, m) {
        ThisMarketOk(w, m, w');
      }
    }
  }

  /** Updating one market's obligation. */
  lemma {:induction false} OneObligation(w: World, id: nat, w': World)
    requires w'.states.Keys == w.states.Keys + {id}
    requires forall j: nat | j != id :: Owed(w', j) == Owed(w, j)
    ensures TotalOwed(w') == TotalOwed(w) + Owed(w', id) - Owed(w, id)
  {
    var before: map<nat, int>, after: map<nat, int> := Obligations(w), Obligations(w');
    assert after == before[id := Owed(w', id)];
    TotalUpdate(before, id, Owed(w', id));
    assert Get(before, id) == Owed(w, id);
  }

  lemma {:induction false} SameObligations(w: World, w': World)
    requires w'.states.Keys == w.states.Keys
    requires forall j: nat :: Owed(w', j) == Owed(w, j)
    ensures TotalOwed(w') == TotalOwed(w)
  {
    assert Obligations(w') == Obligations(w);
  }

  /** USDC sent to the oracle for nothing. */
  ghost function Donation(w: World, m: Move): int {
    if m.action.TokenActivity? && Commits(w, m) then Get(m.action.usdc, ORACLE) - Get(w.usdc, ORACLE) else 0
  }

  /** USDC a move brings the oracle on account of market `id`; negative when it pays out. */
  ghost function Flow(w: World, m: Move, w': World, id: nat): int {
    if About(m, id) then Get(w'.usdc, ORACLE) - Get(w.usdc, ORACLE) else 0
  }

  /**
   What a creation adds to what is owed: a market that carries bonds is created again with another
   bond.  The contract admits that only where the stored expiry is zero.
   */
  ghost function Reissued(w: World, m: Move): int {
    if m.action.ToOracle? && m.action.call.CreateMarket? && Commits(w, m) then
      Bonds(StateOf(w.states, m.action.call.marketId), m.action.call.spec.bondAmount) - Owed(w, m.action.call.marketId)
    else 0
  }

  lemma {:induction false} ThisMarketFlows(w: World, m: Move, w': World)
    requires Step(w, m, w') && Commits(w, m)
    requires m.action.ToOracle? && !m.action.call.Pause? && !m.action.call.Unpause?
    requires PartiesOk(w, m.action.call.marketId)
    ensures
      var id := m.action.call.marketId;
      Get(w'.usdc, ORACLE) - Get(w.usdc, ORACLE) == Owed(w', id) - Owed(w, id) - Reissued(w, m)
  {
    var id := m.action.call.marketId;
    var bond := SpecOf(w.specs, id).bondAmount;
    match m.action.call
    case CreateMarket(_, _, _) =>
    case ProposeOutcome(_, _, _) => C.TransferSums(m.tx.sender, ORACLE, bond, ORACLE);
    case DisputeOutcome(_, _) => C.TransferSums(m.tx.sender, ORACLE, bond, ORACLE);
    case ResolveDispute(_, payouts, _) =>
      C.TransferSums(ORACLE, Winner(OptimisticOf(w.optimistic, id), payouts), 2 * bond, ORACLE);
    case FinalizeOutcome(_, _, _) => C.TransferSums(ORACLE, OptimisticOf(w.optimistic, id).proposer, bond, ORACLE);
  }

  /** What a market takes in or pays out is the change in what is owed on it, but for what a creation reissues. */
  lemma {:induction false} StepFlows(w: World, m: Move, w': World, id: nat)
    requires Step(w, m, w') && PartiesOk(w, id)
    ensures Flow(w, m, w', id) == Owed(w', id) - Owed(w, id) - if About(m, id) then Reissued(w, m) else 0
  {
    if !About(m, id) {
      OtherMarketsKept(w, m, w', id);
    } else if Commits(w, m) {
      ThisMarketFlows(w, m, w');
    }
  }

  /** A move that posts or pays a bond. */
  ghost predicate MovesBond(w: World, m: Move) {
    && Commits(w, m) && m.action.ToOracle?
    && !m.action.call.Pause? && !m.action.call.Unpause? && !m.action.call.CreateMarket?
  }

  lemma {:induction false} BondMoved(w: World, m: Move, w': World)
    requires Step(w, m, w') && AllParties(w) && MovesBond(w, m)
    ensures Surplus(w') == Surplus(w)
  {
    forall j: nat | j != m.action.call.marketId ensures Owed(w', j) == Owed(w, j) {
      OtherMarketsKept(w, m, w', j);
    }
    assert PartiesOk(w, m.action.call.marketId);
    StepFlows(w, m, w', m.action.call.marketId);
    OneObligation(w, m.action.call.marketId, w');
  }

  lemma {:induction false} MarketCreated(w: World, m: Move, w': World)
    requires Step(w, m, w') && Commits(w, m) && m.action.ToOracle? && m.action.call.CreateMarket?
    ensures Surplus(w') == Surplus(w) - Reissued(w, m)
  {
    var id := m.action.call.marketId;
    forall j: nat | j != id ensures Owed(w', j) == Owed(w, j) {
      OtherMarketsKept(w, m, w', j);
    }
    if id in w.states {
      OneObligation(w, id, w');
    } else {
      SameObligations(w, w');
    }
  }

  lemma {:induction false} StepSurplus(w: World, m: Move, w': World)
    requires Step(w, m, w') && AllParties(w)
    ensures Surplus(w') == Surplus(w) + Donation(w, m) - Reissued(w, m) && Donation(w, m) >= 0
  {
    if MovesBond(w, m) {
      BondMoved(w, m, w');
    } else if Commits(w, m) && m.action.ToOracle? && m.action.call.CreateMarket? {
      MarketCreated(w, m, w');
    } else {
      StatesKept(w, m, w');
      forall j: nat ensures Owed(w', j) == Owed(w, j) {
        if !About(m, j) {
          OtherMarketsKept(w, m, w', j);
        }
      }
      SameObligations(w, w');
    }
  }

  /** Only proposals, disputes and resolutions move a market to another state. */
  lemma {:induction false} StatesKept(w: World, m: Move, w': World)
    requires Step(w, m, w') && !MovesBond(w, m)
    ensures w'.states == w.states
    ensures m.action.ToOracle? ==> w'.usdc == w.usdc
  {}

  ghost function Donations(ws: seq<World>, ms: seq<Move>): int
    requires |ws| == |ms| + 1
  {
    if ms == [] then 0
    else
      var n := |ms| - 1;
      Donations(ws[..n + 1], ms[..n]) + Donation(ws[n], ms[n])
  }

  lemma {:induction false} RunMarketsOk(ws: seq<World>, ms: seq<Move>)
    requires IsRun(ws, ms) && Dated(ms) && MarketsOk(ws[0])
    ensures MarketsOk(ws[|ms|])
  {
    if ms == [] {
    } else {
      var n := |ms| - 1;
      assert IsRun(ws[..n + 1], ms[..n]);
      RunMarketsOk(ws[..n + 1], ms[..n]);
      StepMarketsOk(ws[n], ms[n], ws[n + 1]);
    }
  }

  ghost function ReissuedInAll(ws: seq<World>, ms: seq<Move>): int
    requires |ws| == |ms| + 1
  {
    if ms == [] then 0
    else
      var n := |ms| - 1;
      ReissuedInAll(ws[..n + 1], ms[..n]) + Reissued(ws[n], ms[n])
  }

  lemma {:induction false} StepParties(w: World, m: Move, w': World)
    requires Step(w, m, w') && AllParties(w)
    ensures AllParties(w')
  {
    forall id: nat ensures PartiesOk(w', id) {
      assert PartiesOk(w, id);
      if !About(m, id) {
        OtherMarketsKept(w, m, w', id);
      }
    }
  }

  /**
   Every interleaving, markets without an expiry included: the oracle holds what it owes, plus what it
   held beyond that to begin with and was given, less what creations reissued.
   */
  lemma {:induction false} SurplusAccounts(ws: seq<World>, ms: seq<Move>)
    requires IsRun(ws, ms) && AllParties(ws[0])
    ensures Surplus(ws[|ms|]) == Surplus(ws[0]) + Donations(ws, ms) - ReissuedInAll(ws, ms)
    ensures Donations(ws, ms) >= 0 && AllParties(ws[|ms|])
  {
    if ms == [] {
    } else {
      var n := |ms| - 1;
      assert IsRun(ws[..n + 1], ms[..n]);
      SurplusAccounts(ws[..n + 1], ms[..n]);
      StepSurplus(ws[n], ms[n], ws[n + 1]);
      StepParties(ws[n], ms[n], ws[n + 1]);
    }
  }

  lemma {:induction false} OkHasParties(w: World)
    requires MarketsOk(w)
    ensures AllParties(w)
  {
    forall id: nat ensures PartiesOk(w, id) {
      assert MarketOk(w, id);
    }
  }

  /** A market with an expiry can only be created while it is open. */
  lemma {:induction false} DatedNeverReissues(w: World, m: Move)
    requires m.action.ToOracle? && m.action.call.CreateMarket? ==> MarketOk(w, m.action.call.marketId)
    ensures Reissued(w, m) == 0
  {}

  /**
   Bond solvency over every interleaving of dated markets: the oracle holds what it owes, plus what it
   held to begin with and was given.
   */
  lemma {:induction false} BondsSolvent(ws: seq<World>, ms: seq<Move>)
    requires IsRun(ws, ms) && Dated(ms) && MarketsOk(ws[0])
    ensures Surplus(ws[|ms|]) == Surplus(ws[0]) + Donations(ws, ms)
    ensures Donations(ws, ms) >= 0
  {
    NothingReissued(ws, ms);
    OkHasParties(ws[0]);
    SurplusAccounts(ws, ms);
  }

  lemma {:induction false} NothingReissued(ws: seq<World>, ms: seq<Move>)
    requires IsRun(ws, ms) && Dated(ms) && MarketsOk(ws[0])
    ensures ReissuedInAll(ws, ms) == 0
  {
    if ms == [] {
    } else {
      var n := |ms| - 1;
      assert IsRun(ws[..n + 1], ms[..n]);
      NothingReissued(ws[..n + 1], ms[..n]);
      RunMarketsOk(ws[..n + 1], ms[..n]);
      if ms[n].action.ToOracle? && ms[n].action.call.CreateMarket? {
        assert MarketOk(ws[n], ms[n].action.call.marketId);
      }
      DatedNeverReissues(ws[n], ms[n]);
    }
  }

  /** So no payout can fail: in a solvent oracle neither resolution is stopped by the transfer. */
  lemma {:induction false} PayoutsNeverFail(w: World, tx: Tx, call: Call)
    requires AllParties(w) && Surplus(w) >= 0 && Get(w.usdc, ORACLE) < TWO_256
    requires call.ResolveDispute? || call.FinalizeOutcome?
    ensures Verdict(w, tx, call) != Reverted(TransferFailed)
    ensures call.ResolveDispute? && SumPayouts(call.payouts) < TWO_256 ==>
      Verdict(w, tx, call) != Reverted(ArithmeticOverflow)
  {
    var id := call.marketId;
    assert PartiesOk(w, id);
    var owed: map<nat, int> := Obligations(w);
    forall k: nat ensures Get(owed, k) >= 0 {}
    TotalBounds(owed, id);
  }

  ghost function Flows(ws: seq<World>, ms: seq<Move>, id: nat): int
    requires |ws| == |ms| + 1
  {
    if ms == [] then 0
    else
      var n := |ms| - 1;
      Flows(ws[..n + 1], ms[..n], id) + Flow(ws[n], ms[n], ws[n + 1], id)
  }

  /** Whenever this market is created, it is with an expiry; other markets may be created without. */
  ghost predicate DatedAt(ms: seq<Move>, id: nat) {
    forall i | 0 <= i < |ms| && About(ms[i], id) :: DatedMove(ms[i])
  }

  lemma {:induction false} OneMarketKept(w: World, m: Move, w': World, id: nat)
    requires Step(w, m, w') && MarketOk(w, id) && (About(m, id) ==> DatedMove(m))
    ensures MarketOk(w', id)
  {
    if !About(m, id) {
      OtherMarketsKept(w, m, w', id);
    } else if Commits(w, m) {
      ThisMarketOk(w, m, w');
    }
  }

  lemma {:induction false} MarketStaysOk(ws: seq<World>, ms: seq<Move>, id: nat)
    requires IsRun(ws, ms) && DatedAt(ms, id) && MarketOk(ws[0], id)
    ensures MarketOk(ws[|ms|], id)
  {
    if ms == [] {
    } else {
      var n := |ms| - 1;
      assert IsRun(ws[..n + 1], ms[..n]);
      MarketStaysOk(ws[..n + 1], ms[..n], id);
      OneMarketKept(ws[n], ms[n], ws[n + 1], id);
    }
  }

  /**
   Market by market, whatever happens to the others: what a market took in less what it paid out is what is
   owed on it.  A market that goes from open to resolved has paid out exactly what it took in.
   */
  lemma {:induction false} MarketBalances(ws: seq<World>, ms: seq<Move>, id: nat)
    requires IsRun(ws, ms) && DatedAt(ms, id) && MarketOk(ws[0], id)
    ensures Flows(ws, ms, id) == Owed(ws[|ms|], id) - Owed(ws[0], id)
    ensures StateOf(ws[0].states, id) == Open && StateOf(ws[|ms|].states, id) == Resolved ==> Flows(ws, ms, id) == 0
  {
    if ms == [] {
    } else {
      var n := |ms| - 1;
      assert IsRun(ws[..n + 1], ms[..n]);
      MarketBalances(ws[..n + 1], ms[..n], id);
      MarketStaysOk(ws[..n + 1], ms[..n], id);
      if About(ms[n], id) {
        DatedNeverReissues(ws[n], ms[n]);
      }
      StepFlows(ws[n], ms[n], ws[n + 1], id);
    }
  }

  // ---- Reports ----

  /** A market is resolved exactly when it has been reported, and never twice; the report is valid. */
  ghost predicate ReportsOk(w: World, id: nat) {
    && (forall i | 0 <= i < |w.reports| && w.reports[i].marketId == id :: ReportOk(w, w.reports[i]))
    && (forall i, j | 0 <= i < j < |w.reports| :: !(w.reports[i].marketId == id && w.reports[j].marketId == id))
    && (StateOf(w.states, id) == Resolved ==> Reported(w, id))
  }

  ghost predicate ReportOk(w: World, r: Report) {
    && StateOf(w.states, r.marketId) == Resolved
    && r.questionId == SpecOf(w.specs, r.marketId).questionId
    && |r.payouts| == SpecOf(w.specs, r.marketId).outcomeSlotCount
    && SumPayouts(r.payouts) > 0
  }

  ghost predicate Reported(w: World, id: nat) {
    exists i :: 0 <= i < |w.reports| && w.reports[i].marketId == id
  }

  /** The first report of a market. */
  lemma {:induction false} ReportAdded(w: World, id: nat, payouts: Payouts, w': World)
    requires ReportsOk(w, id) && StateOf(w.states, id) != Resolved
    requires w'.specs == w.specs && StateOf(w'.states, id) == Resolved
    requires w'.reports == w.reports + [Report(id, SpecOf(w.specs, id).questionId, payouts)]
    requires |payouts| == SpecOf(w.specs, id).outcomeSlotCount && SumPayouts(payouts) > 0
    ensures ReportsOk(w', id)
  {
    var n := |w.reports|;
    forall i | 0 <= i < n ensures w.reports[i].marketId != id {}
    assert w'.reports[n].marketId == id;
  }

  /** Reports of other markets do not matter. */
  lemma {:induction false} ReportsKept(w: World, w': World, id: nat, more: seq<Report>)
    requires ReportsOk(w, id) && w'.reports == w.reports + more && |more| <= 1
    requires forall r | r in more :: r.marketId != id
    requires StateOf(w'.states, id) == Resolved <==> StateOf(w.states, id) == Resolved
    requires StateOf(w.states, id) == Resolved ==> SpecOf(w'.specs, id) == SpecOf(w.specs, id)
    ensures ReportsOk(w', id)
  {
    var n := |w.reports|;
    forall i | n <= i < |w'.reports| ensures w'.reports[i].marketId != id {
      assert w'.reports[i] in more;
    }
    forall i | 0 <= i < |w'.reports| && w'.reports[i].marketId == id ensures ReportOk(w', w'.reports[i]) {
      assert ReportOk(w, w.reports[i]);
    }
    if StateOf(w'.states, id) == Resolved {
      var i :| 0 <= i < n && w.reports[i].marketId == id;
      assert w'.reports[i].marketId == id;
    }
  }

  /** What a move adds to the reports: one, of the market it resolves, or none. */
  lemma {:induction false} ReportsGrow(w: World, m: Move, w': World) returns (more: seq<Report>)
    requires Step(w, m, w')
    ensures w'.reports == w.reports + more && |more| <= 1
    ensures forall r | r in more :: About(m, r.marketId)
    ensures more != [] ==> Commits(w, m) && (m.action.call.ResolveDispute? || m.action.call.FinalizeOutcome?)
  {
    more := w'.reports[|w.reports|..];
  }

  lemma {:induction false} StepReportsOk(w: World, m: Move, w': World, id: nat)
    requires Step(w, m, w') && MarketOk(w, id) && (About(m, id) ==> DatedMove(m)) && ReportsOk(w, id)
    ensures ReportsOk(w', id)
  {
    var more := ReportsGrow(w, m, w');
    if !About(m, id) {
      OtherMarketsKept(w, m, w', id);
      ReportsKept(w, w', id, more);
    } else if Commits(w, m) && (m.action.call.ResolveDispute? || m.action.call.FinalizeOutcome?) {
      ReportAdded(w, id, m.action.call.payouts, w');
    } else {
      if Commits(w, m) {
        UnresolvedStays(w, m, w');
      }
      ReportsKept(w, w', id, more);
    }
  }

  lemma {:induction false} UnresolvedStays(w: World, m: Move, w': World)
    requires Step(w, m, w') && Commits(w, m)
    requires m.action.ToOracle? && !m.action.call.Pause? && !m.action.call.Unpause?
    requires !m.action.call.ResolveDispute? && !m.action.call.FinalizeOutcome? && MarketOk(w, m.action.call.marketId)
    ensures
      var id := m.action.call.marketId;
      StateOf(w.states, id) != Resolved && StateOf(w'.states, id) != Resolved
  {}

  /**
   Every report of a dated market is valid and unique in every run, including a report that skips the
   validation, whatever happens to other markets.
   */
  lemma {:induction false} ReportsAlwaysOk(ws: seq<World>, ms: seq<Move>, id: nat)
    requires IsRun(ws, ms) && DatedAt(ms, id) && MarketOk(ws[0], id) && ReportsOk(ws[0], id)
    ensures ReportsOk(ws[|ms|], id)
  {
    if ms == [] {
    } else {
      var n := |ms| - 1;
      assert IsRun(ws[..n + 1], ms[..n]);
      ReportsAlwaysOk(ws[..n + 1], ms[..n], id);
      MarketStaysOk(ws[..n + 1], ms[..n], id);
      StepReportsOk(ws[n], ms[n], ws[n + 1], id);
    }
  }

  /** A market that nobody creates stays open for ever: no payout vector is valid for it. */
  lemma {:induction false} UncreatedStaysOpen(ws: seq<World>, ms: seq<Move>, id: nat)
    requires IsRun(ws, ms) && id !in ws[0].specs && StateOf(ws[0].states, id) == Open
    requires forall i | 0 <= i < |ms| :: !(About(ms[i], id) && ms[i].action.call.CreateMarket?)
    ensures id !in ws[|ms|].specs && StateOf(ws[|ms|].states, id) == Open
  {
    if ms == [] {
    } else {
      var n := |ms| - 1;
      assert IsRun(ws[..n + 1], ms[..n]);
      UncreatedStaysOpen(ws[..n + 1], ms[..n], id);
      var w, m, w' := ws[n], ms[n], ws[n + 1];
      assert Step(w, m, w');
      if !About(m, id) {
        OtherMarketsKept(w, m, w', id);
      } else if Commits(w, m) && m.action.call.ProposeOutcome? {
        ProposedWasCreated(w, m.tx, id, m.action.call.payouts, m.action.call.approved);
      }
    }
  }

  // ---- Markets without an expiry ----

  /**
   A committed creation keeps the oracle's surplus exactly when the market is not carrying bonds or its
   bond stays the same.  A market that can be created has a stored expiry of zero.
   */
  lemma {:induction false} CreateKeepsSurplus(w: World, m: Move, w': World)
    requires Step(w, m, w') && Commits(w, m) && m.action.ToOracle? && m.action.call.CreateMarket?
    ensures
      var id, spec := m.action.call.marketId, SpecOf(w.specs, m.action.call.marketId);
      && spec.expiry == 0
      && (Surplus(w') == Surplus(w) <==>
            StateOf(w.states, id) == Open || StateOf(w.states, id) == Resolved
                || m.action.call.spec.bondAmount == spec.bondAmount)
  {
    MarketCreated(w, m, w');
  }

  /** A market without an expiry can be proposed on and then created again with a bond nobody posted. */
  lemma {:induction false} UndatedMarketBreaksSolvency(creator: Address) returns (ws: seq<World>, ms: seq<Move>)
    requires creator != Zero && creator != ORACLE
    ensures IsRun(ws, ms) && |ms| == 3 && AllParties(ws[0])
    ensures Surplus(ws[0]) == 0 && Surplus(ws[3]) == -7
  {
    var tx := Tx(creator, 1);
    var first, again := ResolutionSpec(1, 2, 0, 10, 0), ResolutionSpec(2, 2, 0, 10, 7);
    var payouts: Payouts := [1, 0];
    var w0 := World(map[], map[], map[], map[], [], false, {(MarketCreator, creator)});
    var w1 := w0.(specs := map[1 := first]);
    var proposed := OptimisticState(Proposal(payouts), 1, creator, Zero);
    var w2 := w1.(states := map[1 := Proposed], optimistic := map[1 := proposed]);
    var w3 := w2.(specs := map[1 := again]);
    ms := [
      Move(tx, ToOracle(CreateMarket(1, first, true))),
      Move(tx, ToOracle(ProposeOutcome(1, payouts, true))),
      Move(tx, ToOracle(CreateMarket(1, again, true)))];
    ws := [w0, w1, w2, w3];
    TwoSlots();
    forall k ensures Get(w2.usdc, k) == Get(w1.usdc, k) + SumOf(C.Transfer(creator, ORACLE, 0), k) {
      C.TransferSums(creator, ORACLE, 0, k);
    }
    assert Step(w0, ms[0], w1) && Step(w1, ms[1], w2) && Step(w2, ms[2], w3);
    assert Obligations(w0) == map[];
    StepSurplus(w0, ms[0], w1);
    StepSurplus(w1, ms[1], w2);
    StepSurplus(w2, ms[2], w3);
    assert Reissued(w2, ms[2]) == 7;
  }

  /**
   A committed creation leaves a proposal that the market carries valid exactly when the number of outcome
   slots stays the same.
   */
  lemma {:induction false} CreateKeepsProposal(w: World, m: Move, w': World)
    requires Step(w, m, w') && Commits(w, m) && m.action.ToOracle? && m.action.call.CreateMarket?
    requires
      var id := m.action.call.marketId;
      var os := OptimisticOf(w.optimistic, id);
      os.proposal.Proposal? && PayoutsVerdict(SpecOf(w.specs, id), os.proposal.payouts).Committed?
    ensures
      var id := m.action.call.marketId;
      PayoutsVerdict(SpecOf(w'.specs, id), OptimisticOf(w'.optimistic, id).proposal.payouts).Committed?
      <==> SpecOf(w'.specs, id).outcomeSlotCount == SpecOf(w.specs, id).outcomeSlotCount
  {}

  /** A market without an expiry is proposed on for two slots, created again with three, and finalized as proposed. */
  lemma {:induction false} UndatedMarketMisreports(creator: Address) returns (ws: seq<World>, ms: seq<Move>)
    requires creator != Zero && creator != ORACLE
    ensures IsRun(ws, ms) && |ms| == 4 && ws[0].specs == map[] && ws[0].reports == []
    ensures ReportsOk(ws[0], 1) && !ReportsOk(ws[4], 1)
  {
    var first, again := ResolutionSpec(1, 2, 0, 10, 0), ResolutionSpec(2, 3, 0, 10, 0);
    var payouts: Payouts := [1, 0];
    var grants: Grants := {(MarketCreator, creator)};
    var w0 := World(map[], map[], map[], map[], [], false, grants);
    var w1 := w0.(specs := map[1 := first]);
    var proposed := OptimisticState(Proposal(payouts), 1, creator, Zero);
    var w2 := w1.(states := map[1 := Proposed], optimistic := map[1 := proposed]);
    var w3 := w2.(specs := map[1 := again]);
    var w4 := w3.(states := map[1 := Resolved], reports := [Report(1, 2, payouts)]);
    ms := [
      Move(Tx(creator, 1), ToOracle(CreateMarket(1, first, true))),
      Move(Tx(creator, 1), ToOracle(ProposeOutcome(1, payouts, true))),
      Move(Tx(creator, 1), ToOracle(CreateMarket(1, again, true))),
      Move(Tx(creator, 12), ToOracle(FinalizeOutcome(1, payouts, true)))];
    ws := [w0, w1, w2, w3, w4];
    TwoSlots();
    NothingMoves(w0.usdc, creator, ORACLE);
    NothingMoves(w0.usdc, ORACLE, creator);
    assert Step(w0, ms[0], w1);
    assert Step(w1, ms[1], w2);
    assert Step(w2, ms[2], w3);
    assert Step(w3, ms[3], w4);
    assert !ReportOk(w4, w4.reports[0]);
  }

  lemma {:induction false} NothingMoves(usdc: C.Balances, from: Address, to: Address)
    ensures Posted(usdc, C.Transfer(from, to, 0), usdc)
  {
    forall k ensures Get(usdc, k) == Get(usdc, k) + SumOf(C.Transfer(from, to, 0), k) {
      C.TransferSums(from, to, 0, k);
    }
  }

  lemma {:induction false} TwoSlots()
    ensures PayoutsVerdict(ResolutionSpec(1, 2, 0, 10, 0), [1, 0]) == Committed
  {
    var payouts: Payouts := [1, 0];
    assert payouts[..1] == [1] && payouts[..1][..0] == [];
    assert SumPayouts(payouts) == SumPayouts(payouts[..1]) + 0;
    assert SumPayouts(payouts[..1]) == SumPayouts([]) + 1;
  }
}
