/**
 * `InMemorySecurityChangeRepository`: the event log, one appended list of events per portfolio.
 */
module EventLog {
  import opened Text
  import opened Ledger
  import Folds

  /** Every event of `events` belongs to portfolio `p`. */
  predicate AllOf(events: seq<SecurityChange>, p: string)
  {
    forall i :: 0 <= i < |events| ==> events[i].portfolioId == p
  }

  /** The portfolios that `events` touch. */
  function PortfolioIds(events: seq<SecurityChange>): set<string>
  {
    set i | 0 <= i < |events| :: events[i].portfolioId
  }

  lemma OfPortfolioAppend(xs: seq<SecurityChange>, ys: seq<SecurityChange>, p: string)
    ensures OfPortfolio(xs + ys, p) == OfPortfolio(xs, p) + OfPortfolio(ys, p)
    decreases |ys|
  {
    if ys == [] {
      assert xs + ys == xs;
    } else {
      var n := |ys| - 1;
      assert (xs + ys)[..|xs + ys| - 1] == xs + ys[..n];
      OfPortfolioAppend(xs, ys[..n], p);
    }
  }

  lemma OfPortfolioStep(events: seq<SecurityChange>, i: nat, p: string)
    requires i < |events|
    ensures OfPortfolio(events[..i + 1], p) ==
      OfPortfolio(events[..i], p) + if events[i].portfolioId == p then [events[i]] else []
  {
    assert events[..i + 1][..i] == events[..i];
  }

  /** One `append` step of `appendAll`, seen from one portfolio's list. */
  lemma ExtendLog(start: seq<SecurityChange>, before: seq<SecurityChange>, after: seq<SecurityChange>,
                  events: seq<SecurityChange>, i: nat, p: string)
    requires i < |events|
    requires before == start + OfPortfolio(events[..i], p)
    requires after == if events[i].portfolioId == p then before + [events[i]] else before
    ensures after == start + OfPortfolio(events[..i + 1], p)
  {
    var done := OfPortfolio(events[..i], p);
    OfPortfolioStep(events, i, p);
    if events[i].portfolioId == p {
      assert start + done + [events[i]] == start + (done + [events[i]]);
    } else {
      assert done + [] == done;
    }
  }

  lemma AllOfPrefix(events: seq<SecurityChange>, n: nat, p: string)
    requires n <= |events| && AllOf(events, p)
    ensures AllOf(events[..n], p)
  {
    forall i | 0 <= i < n ensures events[..n][i].portfolioId == p {
      assert events[..n][i] == events[i];
    }
  }

  lemma OfPortfolioSnoc(front: seq<SecurityChange>, e: SecurityChange, p: string)
    ensures OfPortfolio(front + [e], p) == OfPortfolio(front, p) + if e.portfolioId == p then [e] else []
  {
    assert (front + [e])[..|front|] == front;
  }

  /** Events that all belong to `p` pass the portfolio filter whole. */
  lemma {:induction false} OfPortfolioOwn(events: seq<SecurityChange>, p: string)
    requires AllOf(events, p)
    ensures OfPortfolio(events, p) == events
    decreases |events|
  {
    if events != [] {
      var n := |events| - 1;
      var front, e := events[..n], events[n];
      assert events == front + [e];
      AllOfPrefix(events, n, p);
      OfPortfolioOwn(front, p);
      OfPortfolioSnoc(front, e, p);
    }
  }

  /** Events of other portfolios are all filtered out. */
  lemma {:induction false} OfPortfolioNone(events: seq<SecurityChange>, p: string)
    requires forall i :: 0 <= i < |events| ==> events[i].portfolioId != p
    ensures OfPortfolio(events, p) == []
    decreases |events|
  {
    if events != [] {
      var n := |events| - 1;
      var front, e := events[..n], events[n];
      assert events == front + [e];
      forall i | 0 <= i < n ensures front[i].portfolioId != p {
        assert front[i] == events[i];
      }
      OfPortfolioNone(front, p);
      OfPortfolioSnoc(front, e, p);
    }
  }

  /** The list of portfolio `p` in a log, empty when it has none. */
  function EventsIn(log: map<string, seq<SecurityChange>>, p: string): seq<SecurityChange>
  {
    if p in log then log[p] else []
  }

  lemma OnlyPortfolio(events: seq<SecurityChange>, p: string)
    requires events != [] && AllOf(events, p)
    ensures PortfolioIds(events) == {p}
  {
    assert events[0].portfolioId == p;
  }

  /** One portfolio's list after appending events that all belong to `p`. */
  lemma AppendOwnAt(before: seq<SecurityChange>, after: seq<SecurityChange>, events: seq<SecurityChange>, p: string, k: string)
    requires AllOf(events, p)
    requires after == before + OfPortfolio(events, k)
    ensures after == if k == p then before + events else before
  {
    if k == p {
      OfPortfolioOwn(events, p);
    } else {
      OfPortfolioNone(events, k);
      assert before + [] == before;
    }
  }

  /** Appending events that all belong to `p` (at least one) changes the list of `p` and no other. */
  lemma AppendOwn(before: map<string, seq<SecurityChange>>, after: map<string, seq<SecurityChange>>,
                  events: seq<SecurityChange>, p: string)
    requires events != [] && AllOf(events, p)
    requires forall k :: EventsIn(after, k) == EventsIn(before, k) + OfPortfolio(events, k)
    requires after.Keys == before.Keys + PortfolioIds(events)
    ensures after == before[p := EventsIn(before, p) + events]
  {
    var expected := before[p := EventsIn(before, p) + events];
    OnlyPortfolio(events, p);
    forall k | k in after ensures after[k] == expected[k] {
      AppendOwnAt(EventsIn(before, k), EventsIn(after, k), events, p, k);
    }
  }

  class InMemorySecurityChangeRepository {
    var byPortfolio: map<string, seq<SecurityChange>>

    /** A portfolio has a list once something was appended for it, and the list holds only its own events. */
    ghost predicate Valid()
      reads this
    {
      forall p :: p in byPortfolio ==> byPortfolio[p] != [] && AllOf(byPortfolio[p], p)
    }

    /** The events of `p` in append order; none for a portfolio never written to. */
    function Events(p: string): seq<SecurityChange>
      reads this
    {
      EventsIn(byPortfolio, p)
    }

    /** The net volume of `symbol`, looked up upper-cased, that the log gives portfolio `p`. */
    function Holding(p: string, symbol: string): int
      reads this
    {
      Net(p, Events(p), Upper(symbol))
    }

    constructor ()
      ensures Valid()
      ensures byPortfolio == map[]
    {
      byPortfolio := map[];
    }

    /** `append`: `computeIfAbsent(portfolioId, new ArrayList).add(event)`. */
    method Append(e: SecurityChange)
      requires Valid()
      modifies this
      ensures Valid()
      ensures byPortfolio == old(byPortfolio)[e.portfolioId := old(Events(e.portfolioId)) + [e]]
    {
      byPortfolio := byPortfolio[e.portfolioId := Events(e.portfolioId) + [e]];
    }

    /** `appendAll`: `append` of each event in turn; each portfolio's list grows by its own events, in order. */
    method AppendAll(events: seq<SecurityChange>)
      requires Valid()
      modifies this
      ensures Valid()
      ensures forall p :: Events(p) == old(Events(p)) + OfPortfolio(events, p)
      ensures byPortfolio.Keys == old(byPortfolio.Keys) + PortfolioIds(events)
    {
      for i := 0 to |events|
        invariant Valid()
        invariant forall p :: Events(p) == old(Events(p)) + OfPortfolio(events[..i], p)
        invariant byPortfolio.Keys == old(byPortfolio.Keys) + PortfolioIds(events[..i])
      {
        var e := events[i];
        assert events[..i + 1][..i] == events[..i];
        assert PortfolioIds(events[..i + 1]) == PortfolioIds(events[..i]) + {e.portfolioId};
        ghost var mid := byPortfolio;
        Append(e);
        forall p ensures Events(p) == old(Events(p)) + OfPortfolio(events[..i + 1], p) {
          ExtendLog(old(Events(p)), if p in mid then mid[p] else [], Events(p), events, i, p);
        }
      }
      assert events[..|events|] == events;
    }

    /** `findByPortfolio`: a copy of the portfolio's list, empty when it has none. */
    method FindByPortfolio(p: string) returns (r: seq<SecurityChange>)
      requires Valid()
      ensures r == Events(p)
      ensures AllOf(r, p)
    {
      r := Events(p);
    }

    /** `findByPortfolioUpTo`: the portfolio's events not after `upTo`, in append order. */
    method FindByPortfolioUpTo(p: string, upTo: int) returns (r: seq<SecurityChange>)
      requires Valid()
      ensures r == UpTo(Events(p), upTo)
      ensures forall e :: e in r <==> e in Events(p) && e.at <= upTo
    {
      var all := FindByPortfolio(p);
      r := UpTo(all, upTo);
      UpToFilters(all, upTo);
    }

    /** `listPortfolioIds`: every portfolio with a list, once each, in no particular order. */
    method ListPortfolioIds() returns (ids: seq<string>)
      ensures Folds.Distinct(ids)
      ensures forall p :: p in ids <==> p in byPortfolio
    {
      ids := [];
      var rest := byPortfolio.Keys;
      while rest != {}
        invariant rest <= byPortfolio.Keys
        invariant Folds.Distinct(ids)
        invariant forall p :: p in ids <==> p in byPortfolio && p !in rest
        decreases rest
      {
        var p :| p in rest;
        ids := ids + [p];
        rest := rest - {p};
      }
    }
  }
}
