/**
 * The event-sourced rights ledger. A portfolio's holdings are never stored: they are the
 * net of a log of signed volume changes (`SecurityChange` events), folded per symbol by the
 * read model, which leaves out symbols whose net is zero.
 */
module Ledger {
  import opened Wrappers
  import opened Text
  import Folds

  /** A `long` delta other than zero: the only deltas the event constructor accepts. */
  type NonZero = d: int | d != 0 witness 1

  /** Provenance of an event. */
  datatype ActionType = CapitalRaise | BuyRight | SellRight | RightUsage | Adjustment

  /** An event of the log: `delta` units of `symbol` entered (or, when negative, left) a portfolio at time `at`. */
  datatype SecurityChange = SecurityChange(
    portfolioId: string,
    symbol: string,
    delta: NonZero,
    at: int,
    actionType: ActionType,
    actionRef: string)

  /** The exceptions the ledger's services throw. */
  datatype LedgerError =
    | ZeroDelta                 // IllegalArgumentException("delta cannot be zero")
    | InvalidMessage            // IllegalArgumentException("Invalid capital raise message")
    | NotANumber                // NumberFormatException from Double.parseDouble
    | InvalidQuantity           // IllegalArgumentException("quantity must be > 0")
    | NotEnoughRights(symbol: string, wanted: int, available: int)

  /**
   * The event constructor: refuses a zero delta, stores the symbol upper-cased and stamps
   * the event with `now` when no time is given.
   */
  function NewSecurityChange(portfolioId: string, symbol: string, delta: int, at: Option<int>,
                             actionType: ActionType, actionRef: string, now: int): (r: Result<SecurityChange, LedgerError>)
    ensures r.Failure? <==> delta == 0
    ensures r.Failure? ==> r.error == ZeroDelta
    ensures r.Success? ==>
      && r.value.portfolioId == portfolioId
      && r.value.delta == delta
      && r.value.actionType == actionType
      && r.value.actionRef == actionRef
      && IsUpper(r.value.symbol)
      && EqualsIgnoreCase(r.value.symbol, symbol)
      && r.value.at == (if at.Some? then at.value else now)
  {
    if delta == 0 then Failure(ZeroDelta)
    else
      UpperIsIdempotent(symbol);
      Success(SecurityChange(portfolioId, Upper(symbol), delta, if at.Some? then at.value else now,
                             actionType, actionRef))
  }

  /** The holdings of one portfolio: symbol to net volume. */
  datatype HoldingSnapshot = HoldingSnapshot(portfolioId: string, volumes: map<string, int>)

  /** `getOrDefault(k, 0)`. */
  function Get(m: map<string, int>, k: string): int
  {
    if k in m then m[k] else 0
  }

  /** `HoldingSnapshot.volumeOf`: the volume stored under the upper-cased symbol, 0 when there is none. */
  function VolumeOf(snap: HoldingSnapshot, symbol: string): int
  {
    Get(snap.volumes, Upper(symbol))
  }

  /** What a fold counts: one symbol in one portfolio. */
  datatype Position = Position(portfolioId: string, symbol: string)

  /** What one event contributes to a position. */
  function EventDelta(e: SecurityChange, pos: Position): int
  {
    if e.portfolioId == pos.portfolioId && e.symbol == pos.symbol then e.delta else 0
  }

  /** The net volume of `symbol` in portfolio `p`: the sum of the deltas of that portfolio's events on that symbol. */
  function Net(p: string, events: seq<SecurityChange>, symbol: string): int
  {
    Folds.Sum(events, Position(p, symbol), EventDelta)
  }

  /** `snap` holds the net volume of every symbol of `p` over `events`, and no zero entry. */
  ghost predicate Summarises(snap: HoldingSnapshot, p: string, events: seq<SecurityChange>)
  {
    && snap.portfolioId == p
    && (forall s :: Get(snap.volumes, s) == Net(p, events, s))
    && (forall s :: s in snap.volumes ==> snap.volumes[s] != 0)
  }

  lemma NetStep(p: string, events: seq<SecurityChange>, i: nat, s: string)
    requires i < |events|
    ensures Net(p, events[..i + 1], s) == Net(p, events[..i], s) + EventDelta(events[i], Position(p, s))
  {
    assert events[..i + 1][..i] == events[..i];
  }

  /** `PortfolioReadModel.rebuild`: merges every delta of the portfolio's events into its symbol, then drops zeros. */
  method Rebuild(portfolioId: string, events: seq<SecurityChange>) returns (snap: HoldingSnapshot)
    ensures Summarises(snap, portfolioId, events)
  {
    var volumes: map<string, int> := map[];
    for i := 0 to |events|
      invariant forall s :: Get(volumes, s) == Net(portfolioId, events[..i], s)
    {
      var e := events[i];
      forall s ensures Net(portfolioId, events[..i + 1], s) == Net(portfolioId, events[..i], s) + EventDelta(e, Position(portfolioId, s)) {
        NetStep(portfolioId, events, i, s);
      }
      if e.portfolioId != portfolioId {
        continue;
      }
      volumes := volumes[e.symbol := Get(volumes, e.symbol) + e.delta];
    }
    assert events[..|events|] == events;
    volumes := map s | s in volumes && volumes[s] != 0 :: volumes[s];
    snap := HoldingSnapshot(portfolioId, volumes);
  }

  /** The events at or before `t` (not `isAfter(t)`: the cutoff is inclusive), in log order. */
  function UpTo(events: seq<SecurityChange>, t: int): (r: seq<SecurityChange>)
    ensures |r| <= |events|
  {
    if events == [] then []
    else
      var n := |events| - 1;
      UpTo(events[..n], t) + if events[n].at <= t then [events[n]] else []
  }

  /** The cutoff keeps every event not after `t` as often as the log holds it, and nothing else. */
  lemma {:induction false} UpToFilters(events: seq<SecurityChange>, t: int)
    ensures forall e :: multiset(UpTo(events, t))[e] == if e.at <= t then multiset(events)[e] else 0
    ensures forall e :: e in UpTo(events, t) <==> e in events && e.at <= t
    decreases |events|
  {
    if events != [] {
      var n := |events| - 1;
      var front, last := events[..n], events[n];
      assert events == front + [last];
      UpToFilters(front, t);
      UpToSnoc(front, last, t);
      assert multiset(events) == multiset(front) + multiset{last};
    }
  }

  lemma UpToNetStep(p: string, events: seq<SecurityChange>, i: nat, t: int, s: string)
    requires i < |events|
    ensures Net(p, UpTo(events[..i + 1], t), s) ==
      Net(p, UpTo(events[..i], t), s) + if events[i].at <= t then EventDelta(events[i], Position(p, s)) else 0
  {
    var before := UpTo(events[..i], t);
    assert events[..i + 1][..i] == events[..i];
    if events[i].at <= t {
      assert UpTo(events[..i + 1], t) == before + [events[i]];
      assert (before + [events[i]])[..|before|] == before;
    } else {
      assert UpTo(events[..i + 1], t) == before + [];
      assert before + [] == before;
    }
  }

  /** `PortfolioReadModel.rebuildUpTo`: `Rebuild` over the events at or before `upTo`. */
  method RebuildUpTo(portfolioId: string, events: seq<SecurityChange>, upTo: int) returns (snap: HoldingSnapshot)
    ensures Summarises(snap, portfolioId, UpTo(events, upTo))
  {
    var volumes: map<string, int> := map[];
    for i := 0 to |events|
      invariant forall s :: Get(volumes, s) == Net(portfolioId, UpTo(events[..i], upTo), s)
    {
      var e := events[i];
      forall s ensures Net(portfolioId, UpTo(events[..i + 1], upTo), s) ==
        Net(portfolioId, UpTo(events[..i], upTo), s) + if e.at <= upTo then EventDelta(e, Position(portfolioId, s)) else 0
      {
        UpToNetStep(portfolioId, events, i, upTo, s);
      }
      if e.portfolioId != portfolioId {
        continue;
      }
      if e.at > upTo {
        continue;
      }
      volumes := volumes[e.symbol := Get(volumes, e.symbol) + e.delta];
    }
    assert events[..|events|] == events;
    volumes := map s | s in volumes && volumes[s] != 0 :: volumes[s];
    snap := HoldingSnapshot(portfolioId, volumes);
  }

  /** A portfolio and an event list determine the snapshot: the fold does not depend on how it is computed. */
  lemma SummaryIsUnique(a: HoldingSnapshot, b: HoldingSnapshot, p: string, events: seq<SecurityChange>)
    requires Summarises(a, p, events) && Summarises(b, p, events)
    ensures a == b
  {
    forall s ensures s in a.volumes <==> s in b.volumes {
      assert Get(a.volumes, s) == Get(b.volumes, s);
    }
    forall s | s in a.volumes ensures a.volumes[s] == b.volumes[s] {
      assert Get(a.volumes, s) == Get(b.volumes, s);
    }
  }

  /** A cutoff that no event passes changes nothing. */
  lemma {:induction false} UpToAll(events: seq<SecurityChange>, t: int)
    requires forall i :: 0 <= i < |events| ==> events[i].at <= t
    ensures UpTo(events, t) == events
    decreases |events|
  {
    if events != [] {
      var n := |events| - 1;
      var front, e := events[..n], events[n];
      assert events == front + [e];
      forall i | 0 <= i < n ensures front[i].at <= t {
        assert front[i] == events[i];
      }
      UpToAll(front, t);
      UpToSnoc(front, e, t);
    }
  }

  /** The cutoff filters each part of a log on its own, so the kept events stay in log order. */
  lemma {:induction false} UpToAppend(xs: seq<SecurityChange>, ys: seq<SecurityChange>, t: int)
    ensures UpTo(xs + ys, t) == UpTo(xs, t) + UpTo(ys, t)
    decreases |ys|
  {
    if ys == [] {
      assert xs + ys == xs;
      assert UpTo(xs, t) + [] == UpTo(xs, t);
    } else {
      var n := |ys| - 1;
      var front, e := ys[..n], ys[n];
      assert ys == front + [e];
      assert xs + ys == (xs + front) + [e];
      UpToAppend(xs, front, t);
      UpToSnoc(xs + front, e, t);
      UpToSnoc(front, e, t);
      var tail := if e.at <= t then [e] else [];
      assert UpTo(xs, t) + UpTo(front, t) + tail == UpTo(xs, t) + (UpTo(front, t) + tail);
    }
  }

  lemma UpToSnoc(front: seq<SecurityChange>, e: SecurityChange, t: int)
    ensures UpTo(front + [e], t) == UpTo(front, t) + if e.at <= t then [e] else []
  {
    assert (front + [e])[..|front|] == front;
  }

  /** The events of portfolio `p`, in log order. */
  function OfPortfolio(events: seq<SecurityChange>, p: string): seq<SecurityChange>
  {
    if events == [] then []
    else
      var n := |events| - 1;
      OfPortfolio(events[..n], p) + if events[n].portfolioId == p then [events[n]] else []
  }

  /** The filter keeps exactly the events of `p`. */
  lemma {:induction false} OfPortfolioMembers(events: seq<SecurityChange>, p: string)
    ensures forall e :: e in OfPortfolio(events, p) <==> e in events && e.portfolioId == p
    decreases |events|
  {
    if events != [] {
      var n := |events| - 1;
      OfPortfolioMembers(events[..n], p);
      assert events == events[..n] + [events[n]];
    }
  }

  /** Events of other portfolios have no effect on a portfolio's holdings. */
  lemma {:induction false} NetIgnoresOtherPortfolios(p: string, events: seq<SecurityChange>, s: string)
    ensures Net(p, events, s) == Net(p, OfPortfolio(events, p), s)
    decreases |events|
  {
    if events != [] {
      var n := |events| - 1;
      var e := events[n];
      var front := OfPortfolio(events[..n], p);
      NetIgnoresOtherPortfolios(p, events[..n], s);
      if e.portfolioId == p {
        assert (front + [e])[..|front|] == front;
      } else {
        assert front + [] == front;
      }
    }
  }

  /** The net of two logs run one after the other is the sum of their nets. */
  lemma NetAppend(p: string, events: seq<SecurityChange>, added: seq<SecurityChange>, s: string)
    ensures Net(p, events + added, s) == Net(p, events, s) + Net(p, added, s)
  {
    Folds.SumAppend(events, added, Position(p, s), EventDelta);
  }

  /** The suffix that marks a right symbol. */
  const RightSuffix: string := "_X"

  /** `RightSymbolPolicy.rightOf`: the right of stock `FOOLAD` is `FOOLAD_X`. */
  function RightOf(stockSymbol: string): (r: string)
    ensures IsUpper(r)
    ensures EndsWith(r, RightSuffix)
  {
    UpperConcat(Upper(stockSymbol), RightSuffix);
    UpperIsIdempotent(stockSymbol);
    assert Upper(RightSuffix) == RightSuffix;
    Upper(stockSymbol) + RightSuffix
  }

  /** A symbol that names a right: its upper-cased form ends in `_X`. */
  predicate IsRightSymbol(symbol: string)
  {
    EndsWith(Upper(symbol), RightSuffix)
  }

  /**
   * `RightSymbolPolicy.stockOf`: the suffix test is on the upper-cased symbol, but the two
   * characters are cut from the symbol as given; a symbol that is not a right comes back unchanged.
   */
  function StockOf(rightSymbol: string): string
  {
    if IsRightSymbol(rightSymbol) then rightSymbol[..|rightSymbol| - 2] else rightSymbol
  }

  /** The policy round-trips from stocks: the stock of the right of `s` is `s` upper-cased. */
  lemma StockOfRightOf(s: string)
    ensures IsRightSymbol(RightOf(s))
    ensures StockOf(RightOf(s)) == Upper(s)
  {
    var r := RightOf(s);
    assert Upper(r) == r;
    assert r[..|r| - 2] == Upper(s);
  }

  /** From rights it round-trips up to case: the right of the stock of a right symbol is that symbol upper-cased. */
  lemma RightOfStockOf(x: string)
    requires IsRightSymbol(x)
    ensures RightOf(StockOf(x)) == Upper(x)
  {
    var n := |x|;
    assert x == x[..n - 2] + x[n - 2..];
    UpperConcat(x[..n - 2], x[n - 2..]);
    assert Upper(x[n - 2..]) == Upper(x)[n - 2..];
  }

  /** `stockOf` is the identity exactly on the symbols that are not rights. */
  lemma StockOfIsIdentityExactlyOnNonRights(x: string)
    ensures StockOf(x) == x <==> !IsRightSymbol(x)
  {
    if IsRightSymbol(x) {
      assert |StockOf(x)| == |x| - 2;
    }
  }
}
