/**
 * The rights services of the action-based ledger: `RightTradingService` (buy and sell rights)
 * and `StockRightUsageService` (turn rights into stock), both of which count the rights a
 * portfolio owns by folding its stored actions.
 */
module ActionRights {
  import opened Wrappers
  import opened Actions
  import opened ActionStore
  import opened SecurityStore
  import Folds

  /** The `IllegalArgumentException`s the action-based services throw. */
  datatype ServiceError =
    | NonPositiveQuantity   // "quantity must be positive"
    | NotEnoughRights       // "Not enough rights to sell" / "Not enough rights to use"
    | UnknownSecurity       // "Stock or right ... not found for ..."

  /** `PRICE_PER_RIGHT`: what using one right costs. */
  const PricePerRight: int := 100

  /** The symbol of the right attached to stock symbol `s`. */
  function RightSymbol(s: string): string
  {
    s + "_X"
  }

  /** The rights of `right` that portfolio `p` owns at time `t`, over the actions stored in `m`. */
  ghost function RightsOwned(m: map<string, Action>, p: string, right: Security, t: int): int
  {
    Folds.Sum(Folds.Listing(ActionsInUntil(m, p, t)), right, RightsDelta)
  }

  /**
   * Storing a new action moves the rights owned at `t` by that action's own count, and only
   * when it belongs to the portfolio and is not after `t`: later actions, other portfolios and
   * other securities leave the count alone.
   */
  lemma RightsOwnedAfterSave(m: map<string, Action>, a: Action, p: string, right: Security, t: int)
    requires Keyed(m) && a.uuid !in m
    ensures RightsOwned(m[a.uuid := a], p, right, t) ==
      RightsOwned(m, p, right, t) + if a.portfolio == p && a.datetime <= t then RightsDelta(a, right) else 0
  {
    ActionsAfterInsert(m, a, p, t);
    if a.portfolio == p && a.datetime <= t {
      Folds.SumOfListingInsert(ActionsInUntil(m, p, t), a, right, RightsDelta);
    }
  }

  /**
   * The trading test's history: a portfolio with no rights buys 5 and later sells 3, and then
   * owns 2 at the time of the sale, so a further sale of 3 at that time is refused.
   */
  lemma BuyFiveSellThree(m: map<string, Action>, p: string, right: Security, t0: int, t1: int, u0: string, u1: string)
    requires Keyed(m) && ActionsInUntil(m, p, t1) == {}
    requires u0 !in m && u1 !in m && u0 != u1 && t0 <= t1
    ensures var m1 := m[u0 := Action(u0, p, t0, Buy(right, 5))];
      RightsOwned(m1[u1 := Action(u1, p, t1, Sale(right, 3))], p, right, t1) == 2
  {
    var buy := Action(u0, p, t0, Buy(right, 5));
    var m1 := m[u0 := buy];
    assert Folds.Listing(ActionsInUntil(m, p, t1)) == [];
    RightsOwnedAfterSave(m, buy, p, right, t1);
    ValuesAfterInsert(m, buy);
    RightsOwnedAfterSave(m1, Action(u1, p, t1, Sale(right, 3)), p, right, t1);
  }

  /**
   * `rightsOwnedUpTo`, the same private loop in both services: over the portfolio's actions
   * not after `until`, buys and grants of the right add and sales and usages of it subtract.
   */
  method RightsOwnedUpTo(repo: ActionRepository, p: string, right: Security, until: int) returns (total: int)
    requires repo.Valid()
    ensures total == RightsOwned(repo.actions, p, right, until)
  {
    var actions := repo.FindAllActionsOfUntilDate(p, until);
    total := 0;
    for i := 0 to |actions|
      invariant total == Folds.Sum(actions[..i], right, RightsDelta)
    {
      var a := actions[i];
      assert actions[..i + 1][..i] == actions[..i];
      match a.body {
        case Buy(s, v) =>
          if s == right { total := total + v; }
        case Sale(s, v) =>
          if s == right { total := total - v; }
        case CapitalRaise(s, v) =>
          if s == right { total := total + v; }
        case StockRightUsage(r, _, used, _) =>
          if r == right { total := total - used; }
        case Other =>
      }
    }
    assert actions[..|actions|] == actions;
    Folds.SumOfDistinct(actions, ActionsInUntil(repo.actions, p, until), right, RightsDelta);
  }

  class RightTradingService {
    const actionRepository: ActionRepository

    constructor (actionRepository: ActionRepository)
      ensures this.actionRepository == actionRepository
    {
      this.actionRepository := actionRepository;
    }

    /**
     * `buyRights`: a positive quantity is saved as one `Buy` of the right at `when`, which
     * raises the rights owned from `when` on by exactly that quantity.
     */
    method BuyRights(portfolio: string, right: Security, quantity: int, when: int, uuid: string)
      returns (outcome: Outcome<ServiceError>)
      requires actionRepository.Valid()
      modifies actionRepository
      ensures actionRepository.Valid()
      ensures quantity <= 0 ==> outcome == Fail(NonPositiveQuantity) && unchanged(actionRepository)
      ensures quantity > 0 ==>
        && outcome == Pass
        && actionRepository.actions ==
             old(actionRepository.actions)[uuid := Action(uuid, portfolio, when, Buy(right, quantity))]
      ensures quantity > 0 && uuid !in old(actionRepository.actions) ==>
        forall t :: RightsOwned(actionRepository.actions, portfolio, right, t) ==
          RightsOwned(old(actionRepository.actions), portfolio, right, t) + if when <= t then quantity else 0
    {
      if quantity <= 0 {
        return Fail(NonPositiveQuantity);
      }
      var buy := Action(uuid, portfolio, when, Buy(right, quantity));
      ghost var before := actionRepository.actions;
      var saved := actionRepository.Save(buy);
      if uuid !in before {
        forall t ensures RightsOwned(actionRepository.actions, portfolio, right, t) ==
          RightsOwned(before, portfolio, right, t) + if when <= t then quantity else 0
        {
          RightsOwnedAfterSave(before, buy, portfolio, right, t);
        }
      }
      outcome := Pass;
    }

    /**
     * `sellRights`: a positive quantity no larger than the rights owned at `when` is saved as
     * one `Sale` of the right at `when`; otherwise nothing is saved. A sale never takes the
     * rights owned at `when` below zero.
     */
    method SellRights(portfolio: string, right: Security, quantity: int, when: int, uuid: string)
      returns (outcome: Outcome<ServiceError>)
      requires actionRepository.Valid()
      modifies actionRepository
      ensures actionRepository.Valid()
      ensures quantity <= 0 ==> outcome == Fail(NonPositiveQuantity) && unchanged(actionRepository)
      ensures quantity > 0 && quantity > RightsOwned(old(actionRepository.actions), portfolio, right, when) ==>
        outcome == Fail(NotEnoughRights) && unchanged(actionRepository)
      ensures 0 < quantity <= RightsOwned(old(actionRepository.actions), portfolio, right, when) ==>
        && outcome == Pass
        && actionRepository.actions ==
             old(actionRepository.actions)[uuid := Action(uuid, portfolio, when, Sale(right, quantity))]
      ensures outcome == Pass && uuid !in old(actionRepository.actions) ==>
        && RightsOwned(actionRepository.actions, portfolio, right, when) ==
             RightsOwned(old(actionRepository.actions), portfolio, right, when) - quantity
        && RightsOwned(actionRepository.actions, portfolio, right, when) >= 0
    {
      if quantity <= 0 {
        return Fail(NonPositiveQuantity);
      }
      var owned := RightsOwnedUpTo(actionRepository, portfolio, right, when);
      if quantity > owned {
        return Fail(NotEnoughRights);
      }
      var sale := Action(uuid, portfolio, when, Sale(right, quantity));
      ghost var before := actionRepository.actions;
      var saved := actionRepository.Save(sale);
      if uuid !in before {
        RightsOwnedAfterSave(before, sale, portfolio, right, when);
      }
      outcome := Pass;
    }
  }

  class StockRightUsageService {
    const actionRepository: ActionRepository
    const securityRepository: SecurityRepository

    constructor (actionRepository: ActionRepository, securityRepository: SecurityRepository)
      ensures this.actionRepository == actionRepository
      ensures this.securityRepository == securityRepository
    {
      this.actionRepository := actionRepository;
      this.securityRepository := securityRepository;
    }

    /** Both the stock `stockSymbol` and its right are in the security repository. */
    predicate BothKnown(stockSymbol: string)
      reads securityRepository
    {
      securityRepository.FindSecurityBySymbol(stockSymbol).Some? &&
      securityRepository.FindSecurityBySymbol(RightSymbol(stockSymbol)).Some?
    }

    function StockSecurity(stockSymbol: string): Security
      reads securityRepository
      requires BothKnown(stockSymbol)
    {
      securityRepository.FindSecurityBySymbol(stockSymbol).value
    }

    function RightSecurity(stockSymbol: string): Security
      reads securityRepository
      requires BothKnown(stockSymbol)
    {
      securityRepository.FindSecurityBySymbol(RightSymbol(stockSymbol)).value
    }

    /**
     * `useRights`: checks the quantity first, then that both the stock and its `_X` right are
     * known, then that the portfolio owns enough rights at `now`; only then saves one
     * `StockRightUsage` of `quantity` rights at the fixed price, which lowers the rights owned by
     * `quantity`, never below zero.
     */
    method UseRights(portfolio: string, stockSymbol: string, quantity: int, now: int, uuid: string)
      returns (outcome: Outcome<ServiceError>)
      requires actionRepository.Valid()
      modifies actionRepository
      ensures actionRepository.Valid()
      ensures quantity <= 0 ==> outcome == Fail(NonPositiveQuantity) && unchanged(actionRepository)
      ensures quantity > 0 && !BothKnown(stockSymbol) ==>
        outcome == Fail(UnknownSecurity) && unchanged(actionRepository)
      ensures quantity > 0 && BothKnown(stockSymbol) ==>
        var stock := StockSecurity(stockSymbol);
        var right := RightSecurity(stockSymbol);
        var owned := RightsOwned(old(actionRepository.actions), portfolio, right, now);
        && (quantity > owned ==> outcome == Fail(NotEnoughRights) && unchanged(actionRepository))
        && (quantity <= owned ==>
              && outcome == Pass
              && actionRepository.actions == old(actionRepository.actions)[uuid :=
                   Action(uuid, portfolio, now, StockRightUsage(right, stock, quantity, PricePerRight))]
              && (uuid !in old(actionRepository.actions) ==>
                    && RightsOwned(actionRepository.actions, portfolio, right, now) == owned - quantity
                    && RightsOwned(actionRepository.actions, portfolio, right, now) >= 0))
    {
      if quantity <= 0 {
        return Fail(NonPositiveQuantity);
      }
      var stock := securityRepository.FindSecurityBySymbol(stockSymbol);
      var right := securityRepository.FindSecurityBySymbol(RightSymbol(stockSymbol));
      if stock.None? || right.None? {
        return Fail(UnknownSecurity);
      }
      var ownedRights := RightsOwnedUpTo(actionRepository, portfolio, right.value, now);
      if quantity > ownedRights {
        return Fail(NotEnoughRights);
      }
      var usage := Action(uuid, portfolio, now, StockRightUsage(right.value, stock.value, quantity, PricePerRight));
      ghost var before := actionRepository.actions;
      var saved := actionRepository.Save(usage);
      if uuid !in before {
        RightsOwnedAfterSave(before, usage, portfolio, right.value, now);
      }
      outcome := Pass;
    }
  }
}
