/**
 * `PortfolioStockSummaryService`: the securities a portfolio has traded up to the end of a day,
 * each with its net volume (buys less sales) and that volume's value at the day's price,
 * ordered by security name.
 */
module StockSummary {
  import opened Text
  import opened Sorting
  import opened Actions
  import opened ActionStore
  import Folds

  /** `SecuritySummary`: a security, its volume and its value (price times volume). */
  datatype SecuritySummary = SecuritySummary(security: Security, volume: int, value: int)

  /** The actions the summary counts: buys and sales. */
  predicate IsTrade(a: Action)
  {
    a.body.Buy? || a.body.Sale?
  }

  /** The securities bought or sold by the actions of `xs`. */
  function TradedIn(xs: seq<Action>): set<Security>
  {
    set a | a in xs && IsTrade(a) :: a.body.security
  }

  /** The securities bought or sold by a set of actions. */
  ghost function Traded(s: set<Action>): set<Security>
  {
    set a | a in s && IsTrade(a) :: a.body.security
  }

  /** The net volume of `s` in portfolio `p` at time `t`, over the actions stored in `m`: buys less sales. */
  ghost function VolumeAt(m: map<string, Action>, p: string, s: Security, t: int): int
  {
    Folds.Sum(Folds.Listing(ActionsInUntil(m, p, t)), s, TradeDelta)
  }

  /** The price of `s` on the day, by ISIN; 0 when none is recorded. */
  function PriceOf(prices: map<string, int>, s: Security): int
  {
    if s.isin in prices then prices[s.isin] else 0
  }

  /** `Comparator.comparing(ss -> ss.getSecurity().getName())`. */
  predicate ByName(a: SecuritySummary, b: SecuritySummary)
  {
    LexLe(a.security.name, b.security.name)
  }

  lemma ByNameIsTotal()
    ensures Total(ByName)
  {
    forall a: SecuritySummary, b: SecuritySummary ensures ByName(a, b) || ByName(b, a) {
      LexLeTotal(a.security.name, b.security.name);
    }
  }

  /** The securities a list of summaries covers. */
  function SecuritiesOf(xs: seq<SecuritySummary>): set<Security>
  {
    set x | x in xs :: x.security
  }

  /** A security no action of `xs` trades has volume 0 over them. */
  lemma {:induction false} UntradedVolume(xs: seq<Action>, s: Security)
    requires s !in TradedIn(xs)
    ensures Folds.Sum(xs, s, TradeDelta) == 0
    decreases |xs|
  {
    if xs != [] {
      var n := |xs| - 1;
      assert TradedIn(xs[..n]) <= TradedIn(xs) by {
        assert forall a :: a in xs[..n] ==> a in xs;
      }
      if IsTrade(xs[n]) {
        assert xs[n].body.security in TradedIn(xs);
      }
      UntradedVolume(xs[..n], s);
    }
  }

  lemma TradedInStep(xs: seq<Action>, i: nat)
    requires i < |xs|
    ensures TradedIn(xs[..i + 1]) == TradedIn(xs[..i]) + if IsTrade(xs[i]) then {xs[i].body.security} else {}
  {
    assert forall a :: a in xs[..i + 1] <==> a in xs[..i] || a == xs[i] by {
      assert xs[..i + 1] == xs[..i] + [xs[i]];
    }
  }

  /** `x` is the summary of its security's entry: that entry's volume, valued at the day's price. */
  predicate Describes(x: SecuritySummary, volumeMap: map<Security, int>, prices: map<string, int>)
  {
    x.security in volumeMap && x.volume == volumeMap[x.security] && x.value == PriceOf(prices, x.security) * x.volume
  }

  lemma AddNew(done: set<Security>, s: Security)
    requires s !in done
    ensures |done + {s}| == |done| + 1
  {
  }

  lemma SecuritiesOfSnoc(xs: seq<SecuritySummary>, x: SecuritySummary)
    ensures forall y :: y in xs + [x] <==> y in xs || y == x
    ensures SecuritiesOf(xs + [x]) == SecuritiesOf(xs) + {x.security}
  {
    assert forall y :: y in xs + [x] <==> y in xs || y == x;
  }

  class PortfolioStockSummaryService {
    const actionRepository: ActionRepository

    constructor (actionRepository: ActionRepository)
      ensures this.actionRepository == actionRepository
    {
      this.actionRepository := actionRepository;
    }

    /** The merge loop: each buy adds its volume to its security's entry, each sale subtracts it. */
    method Volumes(actions: seq<Action>) returns (volumeMap: map<Security, int>)
      ensures volumeMap.Keys == TradedIn(actions)
      ensures forall s :: s in volumeMap ==> volumeMap[s] == Folds.Sum(actions, s, TradeDelta)
    {
      volumeMap := map[];
      for i := 0 to |actions|
        invariant volumeMap.Keys == TradedIn(actions[..i])
        invariant forall s :: s in volumeMap ==> volumeMap[s] == Folds.Sum(actions[..i], s, TradeDelta)
      {
        var a := actions[i];
        assert actions[..i + 1][..i] == actions[..i];
        TradedInStep(actions, i);
        match a.body {
          case Buy(s, v) =>
            if s !in volumeMap {
              UntradedVolume(actions[..i], s);
            }
            volumeMap := volumeMap[s := if s in volumeMap then volumeMap[s] + v else v];
          case Sale(s, v) =>
            if s !in volumeMap {
              UntradedVolume(actions[..i], s);
            }
            volumeMap := volumeMap[s := if s in volumeMap then volumeMap[s] - v else -v];
          case _ =>
        }
      }
      assert actions[..|actions|] == actions;
    }

    /** The summary loop: one summary per entry, valued at the day's price. */
    method Summaries(volumeMap: map<Security, int>, prices: map<string, int>) returns (list: seq<SecuritySummary>)
      ensures SecuritiesOf(list) == volumeMap.Keys
      ensures |list| == |volumeMap.Keys|
      ensures forall x :: x in list ==> Describes(x, volumeMap, prices)
    {
      list := [];
      var rest := volumeMap.Keys;
      ghost var done: set<Security> := {};
      while rest != {}
        invariant done !! rest && done + rest == volumeMap.Keys
        invariant SecuritiesOf(list) == done
        invariant |list| == |done|
        invariant forall x :: x in list ==> Describes(x, volumeMap, prices)
        decreases rest
      {
        var s :| s in rest;
        var volume := volumeMap[s];
        var price := PriceOf(prices, s);
        var summary := SecuritySummary(s, volume, price * volume);
        SecuritiesOfSnoc(list, summary);
        AddNew(done, s);
        list := list + [summary];
        rest := rest - {s};
        done := done + {s};
      }
    }

    /**
     * `getSecuritiesSummary`: over the portfolio's actions up to 23:59:59 of `day`, exactly one
     * summary per security bought or sold, holding its net volume (negative when oversold) and
     * that volume times its price of the day (0 without a price), sorted by security name.
     */
    method GetSecuritiesSummary(portfolioId: string, day: int, prices: map<string, int>)
      returns (summaries: seq<SecuritySummary>)
      requires actionRepository.Valid()
      ensures SecuritiesOf(summaries) == Traded(actionRepository.ActionsOfUntil(portfolioId, EndOfDay(day)))
      ensures |summaries| == |SecuritiesOf(summaries)|
      ensures forall x :: x in summaries ==>
        && x.volume == VolumeAt(actionRepository.actions, portfolioId, x.security, EndOfDay(day))
        && x.value == PriceOf(prices, x.security) * x.volume
      ensures Sorted(summaries, ByName)
      ensures actionRepository.ActionsOf(portfolioId) == {} ==> summaries == []
    {
      var cutoff := EndOfDay(day);
      var actions := actionRepository.FindAllActionsOfUntilDate(portfolioId, cutoff);
      ghost var counted := actionRepository.ActionsOfUntil(portfolioId, cutoff);
      var volumeMap := Volumes(actions);
      var list := Summaries(volumeMap, prices);
      ByNameIsTotal();
      summaries := InsertionSort(list, ByName);
      assert forall x :: x in summaries <==> x in list by {
        assert forall x :: x in summaries <==> x in multiset(list);
      }
      assert |summaries| == |list| by {
        assert |multiset(summaries)| == |multiset(list)|;
      }
      assert SecuritiesOf(summaries) == SecuritiesOf(list);
      assert TradedIn(actions) == Traded(counted);
      forall x | x in summaries
        ensures x.volume == VolumeAt(actionRepository.actions, portfolioId, x.security, cutoff)
      {
        Folds.SumOfDistinct(actions, counted, x.security, TradeDelta);
      }
      if actionRepository.ActionsOf(portfolioId) == {} {
        assert counted == {};
      }
    }
  }
}
