/** What every call to the oracle asks for and does, written out, and who ends a dispute with whose bond. */
module OracleCalls {
  import opened Chain
  import opened Ledgers
  import opened Oracle
  import opened OracleRuns
  import opened Calls
  import C = Custody

  // ---- Call by call ----

  /** A vector of the right length whose sum is positive and fits in 256 bits. */
  predicate ValidVector(w: World, id: nat, payouts: Payouts) {
    |payouts| == SpecOf(w.specs, id).outcomeSlotCount && 0 < SumPayouts(payouts) < TWO_256
  }

  /** Only a creator creates, while the oracle is up and no expiry is stored; only the specification changes. */
  lemma {:induction false} CreateExactly(w: World, m: Move, w': World, id: nat, spec: ResolutionSpec, accepted: bool)
    requires Step(w, m, w') && m.action == ToOracle(CreateMarket(id, spec, accepted))
    ensures w' ==
      if (MarketCreator, m.tx.sender) in w.roles && !w.paused && accepted && (id in w.specs ==> w.specs[id].expiry == 0)
      then w.(specs := w.specs[id := spec]) else w
  {}

  /**
   Anyone proposes, on an open market from its expiry on, with a valid vector and the bond, which moves to the
   oracle; the proposer, the vector and the time are recorded.
   */
  lemma {:induction false} ProposeExactly(w: World, m: Move, w': World, id: nat, payouts: Payouts, approved: bool)
    requires Step(w, m, w') && m.action == ToOracle(ProposeOutcome(id, payouts, approved))
    ensures Commits(w, m) <==>
      && !w.paused && StateOf(w.states, id) == Open && SpecOf(w.specs, id).expiry <= m.tx.now
      && ValidVector(w, id, payouts)
      && approved && Get(w.usdc, m.tx.sender) >= SpecOf(w.specs, id).bondAmount
    ensures if !Commits(w, m) then w' == w else
      && Sends(w.usdc, w'.usdc, m.tx.sender, ORACLE, SpecOf(w.specs, id).bondAmount)
      && w' == w.(usdc := w'.usdc, states := w.states[id := Proposed], optimistic := w'.optimistic)
      && w'.optimistic.Keys == w.optimistic.Keys + {id}
      && (forall k | k in w.optimistic && k != id :: w'.optimistic[k] == w.optimistic[k])
      && var os := w'.optimistic[id];
         os.proposal == Proposal(payouts) && os.proposer == m.tx.sender && os.proposeTime == m.tx.now
         && os.disputer == OptimisticOf(w.optimistic, id).disputer
  {
    if Commits(w, m) {
      PostedSends(w.usdc, m.tx.sender, ORACLE, SpecOf(w.specs, id).bondAmount, w'.usdc);
    }
  }

  /** Anyone disputes, up to the end of the window, with a second bond. */
  lemma {:induction false} DisputeExactly(w: World, m: Move, w': World, id: nat, approved: bool)
    requires Step(w, m, w') && m.action == ToOracle(DisputeOutcome(id, approved))
    ensures
      var closes := OptimisticOf(w.optimistic, id).proposeTime + SpecOf(w.specs, id).disputeWindow;
      Commits(w, m) <==>
        && !w.paused && StateOf(w.states, id) == Proposed && m.tx.now <= closes < TWO_256
        && approved && Get(w.usdc, m.tx.sender) >= SpecOf(w.specs, id).bondAmount
    ensures if !Commits(w, m) then w' == w else
      && Sends(w.usdc, w'.usdc, m.tx.sender, ORACLE, SpecOf(w.specs, id).bondAmount)
      && w' == w.(usdc := w'.usdc, states := w.states[id := Disputed], optimistic := w'.optimistic)
      && w'.optimistic == w.optimistic[id := OptimisticOf(w.optimistic, id).(disputer := m.tx.sender)]
  {
    if Commits(w, m) {
      PostedSends(w.usdc, m.tx.sender, ORACLE, SpecOf(w.specs, id).bondAmount, w'.usdc);
    }
  }

  /**
   Only an arbitrator resolves a dispute, with a valid vector.  Both bonds go to the disputer if the vector is
   not the proposed one, and to the proposer if it is; the vector is reported.
   */
  lemma {:induction false} ResolveExactly(w: World, m: Move, w': World, id: nat, payouts: Payouts, accepted: bool)
    requires Step(w, m, w') && m.action == ToOracle(ResolveDispute(id, payouts, accepted))
    ensures
      var os, both := OptimisticOf(w.optimistic, id), 2 * SpecOf(w.specs, id).bondAmount;
      Commits(w, m) <==>
        && (Arbitrator, m.tx.sender) in w.roles && StateOf(w.states, id) == Disputed
        && ValidVector(w, id, payouts) && accepted && both < TWO_256 && Get(w.usdc, ORACLE) >= both
        && (if os.proposal == Proposal(payouts) then os.proposer else os.disputer) != Zero
    ensures
      var os, both := OptimisticOf(w.optimistic, id), 2 * SpecOf(w.specs, id).bondAmount;
      if !Commits(w, m) then w' == w else
        && (os.proposal != Proposal(payouts) ==> Sends(w.usdc, w'.usdc, ORACLE, os.disputer, both))
        && (os.proposal == Proposal(payouts) ==> Sends(w.usdc, w'.usdc, ORACLE, os.proposer, both))
        && w' == w.(usdc := w'.usdc, states := w.states[id := Resolved],
                    reports := w.reports + [Report(id, SpecOf(w.specs, id).questionId, payouts)])
  {
    if Commits(w, m) {
      var os := OptimisticOf(w.optimistic, id);
      PostedSends(w.usdc, ORACLE, if os.proposal != Proposal(payouts) then os.disputer else os.proposer,
                  2 * SpecOf(w.specs, id).bondAmount, w'.usdc);
    }
  }

  /** Anyone finalizes, after the window, with the proposed vector; the proposer's bond goes back. */
  lemma {:induction false} FinalizeExactly(w: World, m: Move, w': World, id: nat, payouts: Payouts, accepted: bool)
    requires Step(w, m, w') && m.action == ToOracle(FinalizeOutcome(id, payouts, accepted))
    ensures
      var os, bond := OptimisticOf(w.optimistic, id), SpecOf(w.specs, id).bondAmount;
      Commits(w, m) <==>
        && !w.paused && StateOf(w.states, id) == Proposed
        && os.proposeTime + SpecOf(w.specs, id).disputeWindow < TWO_256
        && m.tx.now > os.proposeTime + SpecOf(w.specs, id).disputeWindow
        && os.proposal == Proposal(payouts) && accepted
        && os.proposer != Zero && Get(w.usdc, ORACLE) >= bond
    ensures if !Commits(w, m) then w' == w else
      && Sends(w.usdc, w'.usdc, ORACLE, OptimisticOf(w.optimistic, id).proposer, SpecOf(w.specs, id).bondAmount)
      && w' == w.(usdc := w'.usdc, states := w.states[id := Resolved],
                  reports := w.reports + [Report(id, SpecOf(w.specs, id).questionId, payouts)])
  {
    if Commits(w, m) {
      PostedSends(w.usdc, ORACLE, OptimisticOf(w.optimistic, id).proposer, SpecOf(w.specs, id).bondAmount, w'.usdc);
    }
  }

  /** The pauser, and nobody else, pauses and unpauses. */
  lemma {:induction false} PauseExactly(w: World, m: Move, w': World)
    requires Step(w, m, w') && (m.action == ToOracle(Pause) || m.action == ToOracle(Unpause))
    ensures w' == if (Pauser, m.tx.sender) in w.roles then w.(paused := m.action == ToOracle(Pause)) else w
  {}

  // ---- Bonds, party by party ----

  /** USDC a move on market `id` brings to account `a`. */
  ghost function Gain(w: World, m: Move, w': World, id: nat, a: Address): int {
    if About(m, id) then Get(w'.usdc, a) - Get(w.usdc, a) else 0
  }

  /** USDC all moves on market `id`, up to the `n`-th, bring to `a`. */
  ghost function Gains(ws: seq<World>, ms: seq<Move>, n: nat, id: nat, a: Address): int
    requires n <= |ms| < |ws|
  {
    if n == 0 then 0 else Gains(ws, ms, n - 1, id, a) + Gain(ws[n - 1], ms[n - 1], ws[n], id, a)
  }

  /** The market is untouched. */
  ghost predicate Fresh(w: World, id: nat) {
    StateOf(w.states, id) == Open && OptimisticOf(w.optimistic, id).disputer == Zero && !Reported(w, id)
  }

  function Part(yes: bool, bond: nat): nat {
    if yes then bond else 0
  }

  /**
   What a market has brought account `a` so far: one bond less as the proposer or the disputer, until the
   market is resolved; then an undisputed proposer is even, a party upheld in a dispute is up one bond, and the
   other one is down one.
   */
  ghost function Due(w: World, id: nat, a: Address): int {
    var os, bond := OptimisticOf(w.optimistic, id), SpecOf(w.specs, id).bondAmount;
    var proposed, disputed := Part(a == os.proposer, bond), Part(a == os.disputer, bond);
    match StateOf(w.states, id)
    case Open => 0
    case Proposed => 0 - proposed
    case Disputed => 0 - proposed - disputed
    case Resolved =>
      if os.disputer == Zero then 0
      else if Upheld(w, id) then proposed - disputed
      else disputed - proposed
  }

  /** The reported vector is the proposed one. */
  ghost predicate Upheld(w: World, id: nat) {
    exists i :: 0 <= i < |w.reports| && w.reports[i].marketId == id
      && OptimisticOf(w.optimistic, id).proposal == Proposal(w.reports[i].payouts)
  }

  /** The disputer is recorded exactly once there is a dispute, and reports come with resolution. */
  ghost predicate InOrder(w: World, id: nat) {
    var state, os := StateOf(w.states, id), OptimisticOf(w.optimistic, id);
    && (state == Open || state == Proposed ==> os.disputer == Zero)
    && (state == Disputed ==> os.disputer != Zero)
    && (state != Resolved ==> !Reported(w, id))
  }

  lemma {:induction false} OthersKeepDue(w: World, m: Move, w': World, id: nat, a: Address)
    requires Step(w, m, w') && !About(m, id) && InOrder(w, id)
    ensures InOrder(w', id) && Due(w', id, a) == Due(w, id, a)
  {
    OtherMarketsKept(w, m, w', id);
    var more := ReportsGrow(w, m, w');
    forall i | |w.reports| <= i < |w'.reports| ensures w'.reports[i].marketId != id {
      assert w'.reports[i] in more;
    }
    SameReports(w, w', id);
  }

  /** Reports of other markets do not matter. */
  lemma {:induction false} SameReports(w: World, w': World, id: nat)
    requires |w.reports| <= |w'.reports| && w'.reports[..|w.reports|] == w.reports
    requires forall i | |w.reports| <= i < |w'.reports| :: w'.reports[i].marketId != id
    requires OptimisticOf(w'.optimistic, id) == OptimisticOf(w.optimistic, id)
    ensures Reported(w', id) <==> Reported(w, id)
    ensures Upheld(w', id) <==> Upheld(w, id)
  {
    forall i | 0 <= i < |w.reports| ensures w'.reports[i] == w.reports[i] {
      assert w'.reports[..|w.reports|][i] == w.reports[i];
    }
  }

  /** A report makes the market upheld or not, as it is the first one. */
  lemma {:induction false} FirstReport(w: World, id: nat, payouts: Payouts, w': World)
    requires !Reported(w, id) && w'.optimistic == w.optimistic
    requires w'.reports == w.reports + [Report(id, SpecOf(w.specs, id).questionId, payouts)]
    ensures Upheld(w', id) <==> OptimisticOf(w.optimistic, id).proposal == Proposal(payouts)
  {
    var n := |w.reports|;
    assert w'.reports[n].marketId == id && w'.reports[n].payouts == payouts;
    forall i | 0 <= i < n ensures w'.reports[i] == w.reports[i] && w'.reports[i].marketId != id {}
  }

  lemma {:induction false} BondsPosted(w: World, m: Move, w': World, id: nat, a: Address)
    requires Step(w, m, w') && Commits(w, m) && About(m, id) && MarketOk(w, id) && InOrder(w, id) && a != ORACLE
    requires m.action.call.CreateMarket? || m.action.call.ProposeOutcome? || m.action.call.DisputeOutcome?
    ensures InOrder(w', id)
    ensures Get(w'.usdc, a) - Get(w.usdc, a) == Due(w', id, a) - Due(w, id, a)
  {
    match m.action.call
    case CreateMarket(_, spec, accepted) => CreateExactly(w, m, w', id, spec, accepted);
    case ProposeOutcome(_, payouts, approved) => ProposeExactly(w, m, w', id, payouts, approved);
    case DisputeOutcome(_, approved) => DisputeExactly(w, m, w', id, approved);
  }

  lemma {:induction false} DisputeEnds(w: World, m: Move, w': World, id: nat, a: Address)
    requires Step(w, m, w') && Commits(w, m) && About(m, id) && MarketOk(w, id) && InOrder(w, id) && a != ORACLE
    requires m.action.call.ResolveDispute?
    ensures InOrder(w', id)
    ensures Get(w'.usdc, a) - Get(w.usdc, a) == Due(w', id, a) - Due(w, id, a)
  {
    ResolveExactly(w, m, w', id, m.action.call.payouts, m.action.call.ctfAccepts);
    FirstReport(w, id, m.action.call.payouts, w');
  }

  lemma {:induction false} ProposalEnds(w: World, m: Move, w': World, id: nat, a: Address)
    requires Step(w, m, w') && Commits(w, m) && About(m, id) && MarketOk(w, id) && InOrder(w, id) && a != ORACLE
    requires m.action.call.FinalizeOutcome?
    ensures InOrder(w', id)
    ensures Get(w'.usdc, a) - Get(w.usdc, a) == Due(w', id, a) - Due(w, id, a)
  {
    FinalizeExactly(w, m, w', id, m.action.call.payouts, m.action.call.ctfAccepts);
    FirstReport(w, id, m.action.call.payouts, w');
  }

  /** One call about the market brings an account the change of its due. */
  lemma {:induction false} CallMovesBonds(w: World, m: Move, w': World, id: nat, a: Address)
    requires Step(w, m, w') && Commits(w, m) && About(m, id) && MarketOk(w, id) && InOrder(w, id) && a != ORACLE
    ensures InOrder(w', id)
    ensures Get(w'.usdc, a) - Get(w.usdc, a) == Due(w', id, a) - Due(w, id, a)
  {
    match m.action.call
    case ResolveDispute(_, _, _) => DisputeEnds(w, m, w', id, a);
    case FinalizeOutcome(_, _, _) => ProposalEnds(w, m, w', id, a);
    case _ => BondsPosted(w, m, w', id, a);
  }

  lemma {:induction false} DueStep(w: World, m: Move, w': World, id: nat, a: Address)
    requires Step(w, m, w') && MarketOk(w, id) && InOrder(w, id) && a != ORACLE
    ensures InOrder(w', id)
    ensures Gain(w, m, w', id, a) == Due(w', id, a) - Due(w, id, a)
  {
    if !About(m, id) {
      OthersKeepDue(w, m, w', id, a);
    } else if Commits(w, m) {
      CallMovesBonds(w, m, w', id, a);
    }
  }

  lemma {:induction false} OkAt(ws: seq<World>, ms: seq<Move>, n: nat, id: nat)
    requires IsRun(ws, ms) && DatedAt(ms, id) && MarketOk(ws[0], id) && n <= |ms|
    ensures MarketOk(ws[n], id)
  {
    if n == 0 {
    } else {
      OkAt(ws, ms, n - 1, id);
      OneMarketKept(ws[n - 1], ms[n - 1], ws[n], id);
    }
  }

  lemma {:induction false} FreshOwesNothing(w: World, id: nat, a: Address)
    requires Fresh(w, id)
    ensures InOrder(w, id) && Due(w, id, a) == 0
  {}

  lemma {:induction false} InOrderAt(ws: seq<World>, ms: seq<Move>, n: nat, id: nat)
    requires IsRun(ws, ms) && DatedAt(ms, id) && MarketOk(ws[0], id) && InOrder(ws[0], id) && n <= |ms|
    ensures InOrder(ws[n], id)
  {
    if n == 0 {
    } else {
      InOrderAt(ws, ms, n - 1, id);
      OkAt(ws, ms, n - 1, id);
      DueStep(ws[n - 1], ms[n - 1], ws[n], id, Zero);
    }
  }

  /** Gains add up to the change of the due. */
  lemma {:induction false} GainsAddUp(ws: seq<World>, ms: seq<Move>, n: nat, id: nat, a: Address)
    requires n <= |ms| < |ws|
    requires forall k | 0 <= k < n :: Gain(ws[k], ms[k], ws[k + 1], id, a) == Due(ws[k + 1], id, a) - Due(ws[k], id, a)
    ensures Gains(ws, ms, n, id, a) == Due(ws[n], id, a) - Due(ws[0], id, a)
  {
    if n == 0 {
    } else {
      GainsAddUp(ws, ms, n - 1, id, a);
    }
  }

  /**
   Over every run, for a dated market that starts untouched: what its calls bring to an account is exactly its
   due.  So a party upheld in a dispute ends it one bond up and the other party one bond down; an undisputed
   proposer ends even; nobody else gains or loses.
   */
  lemma {:induction false} EveryoneGetsTheirDue(ws: seq<World>, ms: seq<Move>, id: nat, a: Address)
    requires IsRun(ws, ms) && DatedAt(ms, id) && MarketOk(ws[0], id) && Fresh(ws[0], id) && a != ORACLE
    ensures Gains(ws, ms, |ms|, id, a) == Due(ws[|ms|], id, a)
  {
    FreshOwesNothing(ws[0], id, a);
    forall k | 0 <= k < |ms|
      ensures Gain(ws[k], ms[k], ws[k + 1], id, a) == Due(ws[k + 1], id, a) - Due(ws[k], id, a)
    {
      OkAt(ws, ms, k, id);
      InOrderAt(ws, ms, k, id);
      DueStep(ws[k], ms[k], ws[k + 1], id, a);
    }
    GainsAddUp(ws, ms, |ms|, id, a);
  }

  // ---- Time ----

  /** No market is resolved without an arbitrator before its window has closed. */
  lemma {:induction false} NoReportBeforeTheWindow(w: World, m: Move, w': World, id: nat)
    requires Step(w, m, w') && StateOf(w.states, id) != Resolved && StateOf(w'.states, id) == Resolved
    ensures
      || ((Arbitrator, m.tx.sender) in w.roles && StateOf(w.states, id) == Disputed)
      || (StateOf(w.states, id) == Proposed
          && m.tx.now > OptimisticOf(w.optimistic, id).proposeTime + SpecOf(w.specs, id).disputeWindow)
  {
    if !About(m, id) {
      OtherMarketsKept(w, m, w', id);
    }
  }

  /** A market moves only forward, and is proposed on no earlier than its expiry. */
  lemma {:induction false} MarketsMoveForward(w: World, m: Move, w': World, id: nat)
    requires Step(w, m, w')
    ensures
      var s, s' := StateOf(w.states, id), StateOf(w'.states, id);
      || s' == s
      || (s == Open && s' == Proposed && m.tx.now >= SpecOf(w.specs, id).expiry
          && OptimisticOf(w'.optimistic, id).proposeTime == m.tx.now)
      || (s == Proposed && s' == Disputed
          && m.tx.now <= OptimisticOf(w.optimistic, id).proposeTime + SpecOf(w.specs, id).disputeWindow)
      || ((s == Proposed || s == Disputed) && s' == Resolved)
  {
    if !About(m, id) {
      OtherMarketsKept(w, m, w', id);
    }
  }
}
