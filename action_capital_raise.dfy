/**
 * `CapitalRaiseService` of the action-based ledger: every portfolio holding the stock is
 * granted `floor(shares × perShare)` rights, saved as one `CapitalRaise` action on the right.
 */
module ActionCapitalRaise {
  import opened Wrappers
  import opened Decimal
  import opened Actions
  import opened ActionStore
  import opened SecurityStore
  import opened ActionRights
  import Folds

  /** The shares of `stock` that portfolio `p` holds over the actions stored in `m`: every buy less every sale, at any time. */
  ghost function SharesHeld(m: map<string, Action>, p: string, stock: Security): int
  {
    Folds.Sum(Folds.Listing(ActionsIn(m, p)), stock, TradeDelta)
  }

  /** Storing a new action moves a portfolio's shares only by what that action trades. */
  lemma SharesAfterSave(m: map<string, Action>, a: Action, p: string, stock: Security)
    requires Keyed(m) && a.uuid !in m
    ensures SharesHeld(m[a.uuid := a], p, stock) ==
      SharesHeld(m, p, stock) + if a.portfolio == p then TradeDelta(a, stock) else 0
  {
    ActionsAfterInsert(m, a, p, 0);
    if a.portfolio == p {
      Folds.SumOfListingInsert(ActionsIn(m, p), a, stock, TradeDelta);
    }
  }

  /** The grant action for portfolio `p`, id `u`. */
  function GrantAction(u: string, p: string, right: Security, grant: int, now: int): Action
  {
    Action(u, p, now, CapitalRaise(right, grant))
  }

  /**
   * The repository after the announcement: starting from `m`, portfolio `ps[i]` whose grant
   * (computed from its shares in `m`) is positive gets grant action `us[i]`, in order.
   */
  ghost function Raised(m: map<string, Action>, ps: seq<string>, us: seq<string>,
                        stock: Security, right: Security, perShare: Ratio, now: int): map<string, Action>
    requires |ps| == |us|
    decreases |ps|
  {
    if ps == [] then m
    else
      var n := |ps| - 1;
      var before := Raised(m, ps[..n], us[..n], stock, right, perShare, now);
      var grant := FloorTimes(SharesHeld(m, ps[n], stock), perShare);
      if grant <= 0 then before
      else before[us[n] := GrantAction(us[n], ps[n], right, grant, now)]
  }

  /** Ids outside `us` are left as they were. */
  lemma {:induction false} RaisedKeepsOthers(m: map<string, Action>, ps: seq<string>, us: seq<string>,
                                             stock: Security, right: Security, perShare: Ratio, now: int, u: string)
    requires |ps| == |us|
    requires u !in us
    ensures u in Raised(m, ps, us, stock, right, perShare, now) <==> u in m
    ensures u in m ==> Raised(m, ps, us, stock, right, perShare, now)[u] == m[u]
    decreases |ps|
  {
    if ps != [] {
      var n := |ps| - 1;
      assert us == us[..n] + [us[n]];
      RaisedKeepsOthers(m, ps[..n], us[..n], stock, right, perShare, now, u);
    }
  }

  /**
   * Each portfolio of the list gets its own grant: id `us[i]` holds the capital-raise action of
   * `ps[i]` on the right, with volume `floor(shares × perShare)`, exactly when that is positive.
   */
  lemma {:induction false} RaisedGrants(m: map<string, Action>, ps: seq<string>, us: seq<string>,
                                        stock: Security, right: Security, perShare: Ratio, now: int, i: nat)
    requires |ps| == |us| && Folds.Distinct(us)
    requires i < |ps| && us[i] !in m
    ensures var grant := FloorTimes(SharesHeld(m, ps[i], stock), perShare);
      && (grant > 0 ==>
            && us[i] in Raised(m, ps, us, stock, right, perShare, now)
            && Raised(m, ps, us, stock, right, perShare, now)[us[i]] == GrantAction(us[i], ps[i], right, grant, now))
      && (grant <= 0 ==> us[i] !in Raised(m, ps, us, stock, right, perShare, now))
    decreases |ps|
  {
    var n := |ps| - 1;
    var before := Raised(m, ps[..n], us[..n], stock, right, perShare, now);
    var last := FloorTimes(SharesHeld(m, ps[n], stock), perShare);
    assert Raised(m, ps, us, stock, right, perShare, now) == if last <= 0 then before else before[us[n] := GrantAction(us[n], ps[n], right, last, now)];
    if i < n {
      assert ps[..n][i] == ps[i] && us[..n][i] == us[i];
      assert us[n] != us[i];
      assert Folds.Distinct(us[..n]);
      RaisedGrants(m, ps[..n], us[..n], stock, right, perShare, now, i);
    } else {
      assert us[i] !in us[..n];
      RaisedKeepsOthers(m, ps[..n], us[..n], stock, right, perShare, now, us[i]);
    }
  }

  class CapitalRaiseService {
    const actionRepository: ActionRepository
    const securityRepository: SecurityRepository

    constructor (actionRepository: ActionRepository, securityRepository: SecurityRepository)
      ensures this.actionRepository == actionRepository
      ensures this.securityRepository == securityRepository
    {
      this.actionRepository := actionRepository;
      this.securityRepository := securityRepository;
    }

    /** Both the stock `symbol` and its right are in the security repository. */
    predicate BothKnown(symbol: string)
      reads securityRepository
    {
      securityRepository.FindSecurityBySymbol(symbol).Some? &&
      securityRepository.FindSecurityBySymbol(RightSymbol(symbol)).Some?
    }

    /** The inner loop of `processAnnouncement`: buys of the stock less sales of it, over all the portfolio's actions. */
    method CurrentShares(p: string, stock: Security) returns (shares: int)
      requires actionRepository.Valid()
      ensures shares == SharesHeld(actionRepository.actions, p, stock)
    {
      var actions := actionRepository.FindAllActionsOf(p);
      shares := 0;
      for i := 0 to |actions|
        invariant shares == Folds.Sum(actions[..i], stock, TradeDelta)
      {
        var a := actions[i];
        assert actions[..i + 1][..i] == actions[..i];
        match a.body {
          case Buy(s, v) =>
            if s == stock { shares := shares + v; }
          case Sale(s, v) =>
            if s == stock { shares := shares - v; }
          case _ =>
        }
      }
      assert actions[..|actions|] == actions;
      Folds.SumOfDistinct(actions, ActionsIn(actionRepository.actions, p), stock, TradeDelta);
    }

    /**
     * `processAnnouncement`: with the stock or its right unknown, nothing is saved; otherwise
     * each portfolio of `portfolios` (the portfolio repository's list) with a positive grant gets
     * one capital-raise action, id `uuids[i]`, dated `now`, the grant being computed from its
     * shares as they were before the announcement.
     */
    method ProcessAnnouncement(symbol: string, perShare: Ratio, now: int, portfolios: seq<string>, uuids: seq<string>)
      returns (outcome: Outcome<ServiceError>)
      requires actionRepository.Valid()
      requires |uuids| == |portfolios| && Folds.Distinct(uuids)
      requires forall i :: 0 <= i < |uuids| ==> uuids[i] !in actionRepository.actions
      modifies actionRepository
      ensures actionRepository.Valid()
      ensures !BothKnown(symbol) ==> outcome == Fail(UnknownSecurity) && unchanged(actionRepository)
      ensures BothKnown(symbol) ==>
        && outcome == Pass
        && actionRepository.actions == Raised(old(actionRepository.actions), portfolios, uuids,
             securityRepository.FindSecurityBySymbol(symbol).value,
             securityRepository.FindSecurityBySymbol(RightSymbol(symbol)).value, perShare, now)
    {
      var stock := securityRepository.FindSecurityBySymbol(symbol);
      var right := securityRepository.FindSecurityBySymbol(RightSymbol(symbol));
      if stock.None? || right.None? {
        return Fail(UnknownSecurity);
      }
      Allocate(stock.value, right.value, perShare, now, portfolios, uuids);
      outcome := Pass;
    }

    /** The portfolio loop of `processAnnouncement`, once both securities are found. */
    method Allocate(stock: Security, right: Security, perShare: Ratio, now: int, portfolios: seq<string>, uuids: seq<string>)
      requires actionRepository.Valid()
      requires |uuids| == |portfolios| && Folds.Distinct(uuids)
      requires forall i :: 0 <= i < |uuids| ==> uuids[i] !in actionRepository.actions
      modifies actionRepository
      ensures actionRepository.Valid()
      ensures actionRepository.actions ==
        Raised(old(actionRepository.actions), portfolios, uuids, stock, right, perShare, now)
    {
      ghost var start := actionRepository.actions;
      for i := 0 to |portfolios|
        invariant actionRepository.Valid()
        invariant actionRepository.actions == Raised(start, portfolios[..i], uuids[..i], stock, right, perShare, now)
        invariant forall q :: SharesHeld(actionRepository.actions, q, stock) == SharesHeld(start, q, stock)
        invariant forall j :: i <= j < |uuids| ==> uuids[j] !in actionRepository.actions
      {
        var p := portfolios[i];
        assert portfolios[..i + 1][..i] == portfolios[..i];
        assert uuids[..i + 1][..i] == uuids[..i];
        var currentShares := CurrentShares(p, stock);
        var grant := FloorTimes(currentShares, perShare);
        if grant <= 0 {
          continue;
        }
        var cr := GrantAction(uuids[i], p, right, grant, now);
        ghost var before := actionRepository.actions;
        var saved := actionRepository.Save(cr);
        forall q ensures SharesHeld(actionRepository.actions, q, stock) == SharesHeld(before, q, stock) {
          SharesAfterSave(before, cr, q, stock);
        }
      }
      assert portfolios[..|portfolios|] == portfolios;
      assert uuids[..|uuids|] == uuids;
    }
  }

  /** The test grants: 10 shares at 0.3 a share earn 3 rights, and at 0.25 a share 2. */
  lemma GrantExamples()
    ensures FloorTimes(10, Ratio(3, 10)) == 3
    ensures FloorTimes(10, Ratio(1, 4)) == 2
  {
  }
}
