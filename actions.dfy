/**
 * The action-based ledger: a portfolio's history is a set of typed actions (buys, sales,
 * capital-raise grants, right usages), and each service folds the actions it cares about
 * into a count. The two derived-change actions (`CapitalRaise`, `StockRightUsage`) also
 * describe themselves as security and cash changes.
 */
module Actions {
  import Folds

  /**
   * A security. `Security` does not override `equals`, so two securities are the same only
   * when they are the same object: `oid` stands for that identity.
   */
  datatype Security = Security(oid: nat, name: string, symbol: string, isin: string)

  /** What an action does, with its own fields. */
  datatype ActionBody =
    | Buy(security: Security, volume: int)
    | Sale(security: Security, volume: int)
    | CapitalRaise(security: Security, volume: int)
    | StockRightUsage(rightSecurity: Security, stockSecurity: Security, rightsUsed: int, pricePerRight: int)
    | Other   // any other kind of action; none of the services below counts it

  /** A stored action: its id, the uuid of its portfolio, its timestamp (in nanoseconds) and its kind. */
  datatype Action = Action(uuid: string, portfolio: string, datetime: int, body: ActionBody)

  /** The entity `SecurityChange`: a signed change of one security in one portfolio, caused by an action. */
  datatype SecurityChange = SecurityChange(
    portfolio: string,
    security: Security,
    actionUuid: string,
    isTradable: bool,
    volumeChange: int)

  /** A signed cash movement of one portfolio, caused by an action. */
  datatype BalanceChange = BalanceChange(portfolio: string, changeAmount: int, actionUuid: string)

  /** The actions that describe themselves as changes. */
  predicate HasChanges(a: Action)
  {
    a.body.CapitalRaise? || a.body.StockRightUsage?
  }

  /**
   * `getSecurityChanges`: a capital raise is one non-tradable grant of its volume on its security;
   * a right usage burns the rights used on the right and mints as many units of the stock, both tradable.
   */
  function SecurityChanges(a: Action): (cs: seq<SecurityChange>)
    requires HasChanges(a)
    ensures forall c :: c in cs ==> c.portfolio == a.portfolio && c.actionUuid == a.uuid
  {
    match a.body
    case CapitalRaise(s, v) =>
      [SecurityChange(a.portfolio, s, a.uuid, false, v)]
    case StockRightUsage(right, stock, used, _) =>
      [SecurityChange(a.portfolio, right, a.uuid, true, -used),
       SecurityChange(a.portfolio, stock, a.uuid, true, used)]
  }

  /** `getBalanceChanges`: a grant moves no cash; a right usage debits rights used times the price per right. */
  function BalanceChanges(a: Action): (bs: seq<BalanceChange>)
    requires HasChanges(a)
    ensures forall b :: b in bs ==> b.portfolio == a.portfolio && b.actionUuid == a.uuid
  {
    match a.body
    case CapitalRaise(_, _) => []
    case StockRightUsage(_, _, used, price) => [BalanceChange(a.portfolio, -(used * price), a.uuid)]
  }

  /** How much one change moves security `s`. */
  function ChangeOn(c: SecurityChange, s: Security): int
  {
    if c.security == s then c.volumeChange else 0
  }

  /** Every change moves some security: the whole volume of a list of changes. */
  function ChangeVolume(c: SecurityChange, u: ()): int
  {
    c.volumeChange
  }

  /** Cash moved by one balance change. */
  function CashOf(b: BalanceChange, u: ()): int
  {
    b.changeAmount
  }

  /**
   * What one action adds to the rights of `right` a portfolio owns: buys and grants add,
   * sales and usages (by their rights used) take away; everything else, and every other security, counts 0.
   */
  function RightsDelta(a: Action, right: Security): int
  {
    match a.body
    case Buy(s, v) => if s == right then v else 0
    case Sale(s, v) => if s == right then -v else 0
    case CapitalRaise(s, v) => if s == right then v else 0
    case StockRightUsage(r, _, used, _) => if r == right then -used else 0
    case Other => 0
  }

  /** What one action adds to the shares of `stock` held: buys add, sales take away, nothing else counts. */
  function TradeDelta(a: Action, stock: Security): int
  {
    match a.body
    case Buy(s, v) => if s == stock then v else 0
    case Sale(s, v) => if s == stock then -v else 0
    case _ => 0
  }

  /** A right usage converts rights into stock one for one: both its changes are tradable and they sum to zero. */
  lemma UsageConservesUnits(a: Action)
    requires a.body.StockRightUsage?
    ensures |SecurityChanges(a)| == 2
    ensures forall c :: c in SecurityChanges(a) ==> c.isTradable
    ensures Folds.Sum(SecurityChanges(a), (), ChangeVolume) == 0
  {
    Folds.SumOfTwo(SecurityChanges(a)[0], SecurityChanges(a)[1], (), ChangeVolume);
  }

  /** A grant is a single non-tradable change that carries the grant's whole volume. */
  lemma GrantIsOneLockedChange(a: Action)
    requires a.body.CapitalRaise?
    ensures |SecurityChanges(a)| == 1
    ensures !SecurityChanges(a)[0].isTradable
    ensures Folds.Sum(SecurityChanges(a), (), ChangeVolume) == a.body.volume
    ensures BalanceChanges(a) == []
  {
    Folds.SumOfOne(SecurityChanges(a)[0], (), ChangeVolume);
  }

  /** A right usage debits its cost once: the cash it moves is minus rights used times the price. */
  lemma UsageDebitsCost(a: Action)
    requires a.body.StockRightUsage?
    ensures |BalanceChanges(a)| == 1
    ensures Folds.Sum(BalanceChanges(a), (), CashOf) == -(a.body.rightsUsed * a.body.pricePerRight)
  {
    Folds.SumOfOne(BalanceChanges(a)[0], (), CashOf);
  }

  /**
   * The rights count agrees with the changes an action describes: on the right it counts, the
   * changes of a grant or usage move it by exactly `RightsDelta` (the stock a usage mints is not a right).
   */
  lemma RightsDeltaMatchesChanges(a: Action, right: Security)
    requires HasChanges(a)
    requires a.body.StockRightUsage? ==> right != a.body.stockSecurity
    ensures Folds.Sum(SecurityChanges(a), right, ChangeOn) == RightsDelta(a, right)
  {
    var cs := SecurityChanges(a);
    if a.body.StockRightUsage? {
      Folds.SumOfTwo(cs[0], cs[1], right, ChangeOn);
    } else {
      Folds.SumOfOne(cs[0], right, ChangeOn);
    }
  }

  /**
   * As written, the share count does not see stock minted by a right usage: its changes add
   * the rights used to the stock, while `TradeDelta` adds nothing.
   */
  lemma SharesIgnoreUsage(a: Action)
    requires a.body.StockRightUsage? && a.body.rightSecurity != a.body.stockSecurity
    ensures Folds.Sum(SecurityChanges(a), a.body.stockSecurity, ChangeOn) == a.body.rightsUsed
    ensures TradeDelta(a, a.body.stockSecurity) == 0
  {
    var cs := SecurityChanges(a);
    Folds.SumOfTwo(cs[0], cs[1], a.body.stockSecurity, ChangeOn);
  }

  /** The test usage: 5 rights of FOO_X at 100 burn 5 FOO_X, mint 5 FOO and debit 500. */
  lemma UsageExample(p: string, u: string, t: int, foo: Security, fooX: Security)
    ensures var a := Action(u, p, t, StockRightUsage(fooX, foo, 5, 100));
      && SecurityChanges(a) == [SecurityChange(p, fooX, u, true, -5), SecurityChange(p, foo, u, true, 5)]
      && BalanceChanges(a) == [BalanceChange(p, -500, u)]
  {
  }

  const NanosPerSecond: int := 1_000_000_000
  const SecondsPerDay: int := 86400

  /** `date.atTime(23, 59, 59)`: the last whole second of day `day`, in nanoseconds since the epoch. */
  function EndOfDay(day: int): (t: int)
    ensures day * SecondsPerDay * NanosPerSecond <= t < (day + 1) * SecondsPerDay * NanosPerSecond
    ensures t + NanosPerSecond == (day + 1) * SecondsPerDay * NanosPerSecond
  {
    (day * SecondsPerDay + SecondsPerDay - 1) * NanosPerSecond
  }
}
