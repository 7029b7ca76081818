/**
 * The services of the event-sourced ledger. Each reads current holdings from the log,
 * validates, and only then appends events: a capital raise grants rights in proportion to
 * stock held, rights are bought and sold, and rights are converted one to one into stock.
 */
module RightsServices {
  import opened Wrappers
  import opened Text
  import opened Decimal
  import opened Ledger
  import opened EventLog
  import Folds

  /** `StockRightUsageService.COST_PER_RIGHT`, in toman: declared, never charged here (cash is handled elsewhere). */
  const CostPerRight: int := 100

  /** A well-formed capital raise: the upper-cased stock symbol and the rights granted per share held. */
  datatype Announcement = Announcement(symbol: string, perShare: Ratio)

  /**
   * The message check of `processAnnouncement`: the trimmed message must split into exactly three
   * tokens, the first equal to `CAPITAL_RAISE` ignoring case and the third a number.
   */
  function ParseAnnouncement(message: string): (r: Result<Announcement, LedgerError>)
    ensures r.Success? ==> IsUpper(r.value.symbol)
    ensures r.Failure? ==> r.error == InvalidMessage || r.error == NotANumber
  {
    var parts := Tokens(message);
    if |parts| != 3 || !EqualsIgnoreCase("CAPITAL_RAISE", parts[0]) then Failure(InvalidMessage)
    else
      UpperIsIdempotent(parts[1]);
      match ParseDecimal(parts[2])
      case None => Failure(NotANumber)
      case Some(q) => Success(Announcement(Upper(parts[1]), q))
  }

  /**
   * A message rendered as `<verb> <symbol> <number>` with a case-insensitive `CAPITAL_RAISE` verb
   * is refused as not a number exactly when its third token does not parse, and is otherwise
   * accepted, with the symbol upper-cased.
   */
  lemma ParseAnnouncementAccepts(verb: string, symbol: string, number: string)
    requires EqualsIgnoreCase(verb, "CAPITAL_RAISE")
    requires IsToken(verb) && IsToken(symbol) && IsToken(number)
    ensures ParseAnnouncement(JoinSpaced([verb, symbol, number])) ==
      if ParseDecimal(number).None? then Failure(NotANumber)
      else Success(Announcement(Upper(symbol), ParseDecimal(number).value))
  {
    var parts := [verb, symbol, number];
    ThreeTokens(verb, symbol, number);
    TokensOfJoin(parts);
    assert Tokens(JoinSpaced(parts)) == parts;
  }

  /** Any arity other than three, or any other verb, is refused as an invalid message. */
  lemma ParseAnnouncementRejects(message: string)
    requires |Tokens(message)| != 3 || !EqualsIgnoreCase("CAPITAL_RAISE", Tokens(message)[0])
    ensures ParseAnnouncement(message) == Failure(InvalidMessage)
  {
  }

  /** The rights `held` shares earn at `perShare`: `(long) Math.floor(held * perShare)`, and none when `held <= 0`. */
  function Grant(held: int, perShare: Ratio): int
  {
    if held <= 0 then 0 else FloorTimes(held, perShare)
  }

  /** Rounding is down: with a non-negative ratio the grant is the largest whole number not above held × ratio. */
  lemma GrantRoundsDown(held: int, perShare: Ratio)
    requires held > 0 && perShare.num >= 0
    ensures 0 <= Grant(held, perShare)
    ensures Grant(held, perShare) * perShare.den <= held * perShare.num < (Grant(held, perShare) + 1) * perShare.den
  {
    FloorTimesBounds(held, perShare);
  }

  /** The check is `grant == 0`, not `grant <= 0`: a negative ratio yields a negative grant, which is appended. */
  lemma NegativeRatioRevokes(held: int, perShare: Ratio)
    requires held > 0 && perShare.num < 0
    ensures Grant(held, perShare) < 0
  {
    var g := Grant(held, perShare);
    assert held * perShare.num < 0 by {
      assert held * perShare.num <= held * (-1);
    }
    assert g * perShare.den < 0;
  }

  /** The announcement test: at half a right per share, 100 shares earn 50 rights, 200 earn 100, none earn none. */
  lemma ProportionalGrantExample()
    ensures Grant(100, Ratio(1, 2)) == 50
    ensures Grant(200, Ratio(1, 2)) == 100
    ensures Grant(0, Ratio(1, 2)) == 0
  {
  }

  /** The events `processAnnouncement` adds for portfolio `p` whose log is `events`: one grant event, or none. */
  function GrantEvents(p: string, events: seq<SecurityChange>, a: Announcement, messageId: string, now: int): seq<SecurityChange>
  {
    var g := Grant(Net(p, events, a.symbol), a.perShare);
    if g == 0 then [] else [SecurityChange(p, RightOf(a.symbol), g, now, ActionType.CapitalRaise, messageId)]
  }

  /** The batch `processAnnouncement` builds, visiting the portfolios `ids` in order over the log `log`. */
  function GrantBatch(ids: seq<string>, log: map<string, seq<SecurityChange>>, a: Announcement, messageId: string, now: int): seq<SecurityChange>
  {
    if ids == [] then []
    else
      var n := |ids| - 1;
      GrantBatch(ids[..n], log, a, messageId, now) + GrantEvents(ids[n], EventsIn(log, ids[n]), a, messageId, now)
  }

  lemma GrantBatchStep(ids: seq<string>, i: nat, log: map<string, seq<SecurityChange>>, a: Announcement, messageId: string, now: int)
    requires i < |ids|
    ensures GrantBatch(ids[..i + 1], log, a, messageId, now) ==
      GrantBatch(ids[..i], log, a, messageId, now) + GrantEvents(ids[i], EventsIn(log, ids[i]), a, messageId, now)
  {
    assert ids[..i + 1][..i] == ids[..i];
  }

  /** The grant events of portfolio `q`, seen from portfolio `p`: all of them when `p == q`, none otherwise. */
  lemma GrantEventsOf(q: string, events: seq<SecurityChange>, a: Announcement, messageId: string, now: int, p: string)
    ensures OfPortfolio(GrantEvents(q, events, a, messageId, now), p) ==
      if p == q then GrantEvents(q, events, a, messageId, now) else []
  {
    var added := GrantEvents(q, events, a, messageId, now);
    if p == q {
      OfPortfolioOwn(added, p);
    } else {
      OfPortfolioNone(added, p);
    }
  }

  /** Visiting each portfolio once, the batch holds exactly each visited portfolio's grant events. */
  lemma {:induction false} GrantBatchOfPortfolio(ids: seq<string>, log: map<string, seq<SecurityChange>>, a: Announcement,
                                                 messageId: string, now: int, p: string)
    requires Folds.Distinct(ids)
    ensures OfPortfolio(GrantBatch(ids, log, a, messageId, now), p) ==
      if p in ids then GrantEvents(p, EventsIn(log, p), a, messageId, now) else []
    decreases |ids|
  {
    if ids != [] {
      var n := |ids| - 1;
      var q := ids[n];
      var front := GrantBatch(ids[..n], log, a, messageId, now);
      var added := GrantEvents(q, EventsIn(log, q), a, messageId, now);
      Folds.DistinctInit(ids);
      GrantBatchOfPortfolio(ids[..n], log, a, messageId, now, p);
      OfPortfolioAppend(front, added, p);
      GrantEventsOf(q, EventsIn(log, q), a, messageId, now, p);
      if p == q {
        assert [] + added == added;
      } else {
        assert OfPortfolio(front, p) + [] == OfPortfolio(front, p);
      }
    }
  }

  /** A capital raise moves only the right of the announced stock, by the grant. */
  lemma AnnouncementEffect(p: string, events: seq<SecurityChange>, a: Announcement, messageId: string, now: int, s: string)
    ensures Net(p, events + GrantEvents(p, events, a, messageId, now), s) ==
      Net(p, events, s) + if s == RightOf(a.symbol) then Grant(Net(p, events, a.symbol), a.perShare) else 0
  {
    var g := Grant(Net(p, events, a.symbol), a.perShare);
    var added := GrantEvents(p, events, a, messageId, now);
    if g == 0 {
      assert events + added == events;
    } else {
      var e := SecurityChange(p, RightOf(a.symbol), g, now, ActionType.CapitalRaise, messageId);
      assert added == [e];
      AppendEffect(p, events, e, s);
    }
  }

  /** One `append` of event `e`: only the position of `e` moves, by its delta. */
  lemma AppendEffect(p: string, events: seq<SecurityChange>, e: SecurityChange, s: string)
    ensures Net(p, events + [e], s) == Net(p, events, s) + if e.portfolioId == p && e.symbol == s then e.delta as int else 0
  {
    NetAppend(p, events, [e], s);
    assert [e][..0] == [];
  }

  /** The two events of a right usage: burn `quantity` rights, mint as many shares of the underlying stock. */
  function UsageEvents(p: string, rightSymbol: string, quantity: int, requestId: string, now: int): seq<SecurityChange>
    requires quantity > 0
  {
    [SecurityChange(p, Upper(rightSymbol), -quantity, now, RightUsage, requestId),
     SecurityChange(p, Upper(StockOf(rightSymbol)), quantity, now, RightUsage, requestId)]
  }

  /**
   * A usage takes `quantity` from the right and adds it to the stock; both units are the same
   * symbol when `rightSymbol` is not a right, and then holdings do not move at all.
   */
  lemma UsageEffect(p: string, events: seq<SecurityChange>, rightSymbol: string, quantity: int, requestId: string, now: int, s: string)
    requires quantity > 0
    ensures Net(p, events + UsageEvents(p, rightSymbol, quantity, requestId, now), s) ==
      Net(p, events, s)
      - (if s == Upper(rightSymbol) then quantity else 0)
      + (if s == Upper(StockOf(rightSymbol)) then quantity else 0)
  {
    var u := UsageEvents(p, rightSymbol, quantity, requestId, now);
    assert events + u == events + [u[0]] + [u[1]];
    AppendEffect(p, events, u[0], s);
    AppendEffect(p, events + [u[0]], u[1], s);
  }

  /** The stock a right converts into is a different symbol from the right itself. */
  lemma StockDiffersFromRight(rightSymbol: string)
    requires IsRightSymbol(rightSymbol)
    ensures Upper(StockOf(rightSymbol)) != Upper(rightSymbol)
  {
    assert |Upper(StockOf(rightSymbol))| == |rightSymbol| - 2;
  }

  /** `PortfolioQueryService`. */
  class PortfolioQueryService {
    const repo: InMemorySecurityChangeRepository

    constructor (repo: InMemorySecurityChangeRepository)
      ensures this.repo == repo
    {
      this.repo := repo;
    }

    /** `currentHoldings`: the snapshot rebuilt from the portfolio's whole log. */
    method CurrentHoldings(portfolioId: string) returns (snap: HoldingSnapshot)
      requires repo.Valid()
      ensures Summarises(snap, portfolioId, repo.Events(portfolioId))
      ensures forall symbol :: VolumeOf(snap, symbol) == repo.Holding(portfolioId, symbol)
    {
      var events := repo.FindByPortfolio(portfolioId);
      snap := Rebuild(portfolioId, events);
    }
  }

  /** `CapitalRaiseService`. */
  class CapitalRaiseService {
    const repo: InMemorySecurityChangeRepository
    const queryService: PortfolioQueryService

    constructor (repo: InMemorySecurityChangeRepository)
      ensures this.repo == repo && queryService.repo == repo
    {
      this.repo := repo;
      queryService := new PortfolioQueryService(repo);
    }

    /**
     * `processAnnouncement`: validates the message, then gives every portfolio in the log whose
     * holding of the stock yields a non-zero grant one event on the right, all in one batch.
     */
    method ProcessAnnouncement(message: string, messageId: string, now: int) returns (outcome: Outcome<LedgerError>)
      requires queryService.repo == repo && repo.Valid()
      modifies repo
      ensures repo.Valid()
      ensures ParseAnnouncement(message).Failure? ==>
        outcome == Fail(ParseAnnouncement(message).error) && unchanged(repo)
      ensures ParseAnnouncement(message).Success? ==>
        && outcome == Pass
        && forall p :: repo.Events(p) ==
             old(repo.Events(p)) + GrantEvents(p, old(repo.Events(p)), ParseAnnouncement(message).value, messageId, now)
    {
      var parsed := ParseAnnouncement(message);
      if parsed.Failure? {
        return Fail(parsed.error);
      }
      Allocate(parsed.value, messageId, now);
      outcome := Pass;
    }

    /** One turn of the allocation loop: the grant event of portfolio `pid`, or none when its holding yields no right. */
    method GrantFor(a: Announcement, messageId: string, now: int, pid: string) returns (added: seq<SecurityChange>)
      requires queryService.repo == repo && repo.Valid()
      requires IsUpper(a.symbol)
      ensures added == GrantEvents(pid, repo.Events(pid), a, messageId, now)
    {
      var snap := queryService.CurrentHoldings(pid);
      var held := VolumeOf(snap, a.symbol);
      assert held == Net(pid, repo.Events(pid), a.symbol);
      added := [];
      if held <= 0 {
        return;
      }
      var rightsToGrant := FloorTimes(held, a.perShare);
      if rightsToGrant == 0 {
        return;
      }
      var e := NewSecurityChange(pid, RightOf(a.symbol), rightsToGrant, Some(now), ActionType.CapitalRaise, messageId, now).value;
      added := [e];
    }

    /** The allocation loop of `processAnnouncement`, once the message is valid: grants are read from the log as it was, then appended in one batch. */
    method Allocate(a: Announcement, messageId: string, now: int)
      requires queryService.repo == repo && repo.Valid()
      requires IsUpper(a.symbol)
      modifies repo
      ensures repo.Valid()
      ensures forall p :: repo.Events(p) == old(repo.Events(p)) + GrantEvents(p, old(repo.Events(p)), a, messageId, now)
    {
      var ids := repo.ListPortfolioIds();
      var batch: seq<SecurityChange> := [];
      for i := 0 to |ids|
        invariant repo.byPortfolio == old(repo.byPortfolio)
        invariant batch == GrantBatch(ids[..i], repo.byPortfolio, a, messageId, now)
      {
        var added := GrantFor(a, messageId, now, ids[i]);
        GrantBatchStep(ids, i, repo.byPortfolio, a, messageId, now);
        batch := batch + added;
      }
      assert ids[..|ids|] == ids;
      forall p ensures OfPortfolio(batch, p) == GrantEvents(p, repo.Events(p), a, messageId, now) {
        GrantBatchOfPortfolio(ids, repo.byPortfolio, a, messageId, now, p);
      }
      if batch != [] {
        repo.AppendAll(batch);
      }
    }
  }

  /** `RightTradingService`. The price parameters are ignored by the source and are not modelled. */
  class RightTradingService {
    const repo: InMemorySecurityChangeRepository
    const queryService: PortfolioQueryService

    constructor (repo: InMemorySecurityChangeRepository)
      ensures this.repo == repo && queryService.repo == repo
    {
      this.repo := repo;
      queryService := new PortfolioQueryService(repo);
    }

    /** `buyRights`: a positive quantity is appended to the (upper-cased) right unconditionally. */
    method BuyRights(portfolioId: string, rightSymbol: string, quantity: int, orderId: string, now: int)
      returns (outcome: Outcome<LedgerError>)
      requires repo.Valid()
      modifies repo
      ensures repo.Valid()
      ensures quantity <= 0 ==> outcome == Fail(InvalidQuantity) && unchanged(repo)
      ensures quantity > 0 ==>
        && outcome == Pass
        && repo.byPortfolio == old(repo.byPortfolio)[portfolioId :=
             old(repo.Events(portfolioId)) + [SecurityChange(portfolioId, Upper(rightSymbol), quantity, now, BuyRight, orderId)]]
        && repo.Holding(portfolioId, rightSymbol) == old(repo.Holding(portfolioId, rightSymbol)) + quantity
    {
      if quantity <= 0 {
        return Fail(InvalidQuantity);
      }
      UpperIsIdempotent(rightSymbol);
      var e := NewSecurityChange(portfolioId, Upper(rightSymbol), quantity, Some(now), BuyRight, orderId, now).value;
      assert e == SecurityChange(portfolioId, Upper(rightSymbol), quantity, now, BuyRight, orderId);
      AppendEffect(portfolioId, repo.Events(portfolioId), e, Upper(rightSymbol));
      repo.Append(e);
      outcome := Pass;
    }

    /** `sellRights`: refused, with nothing appended, unless the portfolio holds at least `quantity` of the right. */
    method SellRights(portfolioId: string, rightSymbol: string, quantity: int, orderId: string, now: int)
      returns (outcome: Outcome<LedgerError>)
      requires queryService.repo == repo && repo.Valid()
      modifies repo
      ensures repo.Valid()
      ensures quantity <= 0 ==> outcome == Fail(InvalidQuantity) && unchanged(repo)
      ensures quantity > 0 && old(repo.Holding(portfolioId, rightSymbol)) < quantity ==>
        && outcome == Fail(NotEnoughRights(rightSymbol, quantity, old(repo.Holding(portfolioId, rightSymbol))))
        && unchanged(repo)
      ensures quantity > 0 && old(repo.Holding(portfolioId, rightSymbol)) >= quantity ==>
        && outcome == Pass
        && repo.byPortfolio == old(repo.byPortfolio)[portfolioId :=
             old(repo.Events(portfolioId)) + [SecurityChange(portfolioId, Upper(rightSymbol), -quantity, now, SellRight, orderId)]]
        && repo.Holding(portfolioId, rightSymbol) == old(repo.Holding(portfolioId, rightSymbol)) - quantity >= 0
    {
      if quantity <= 0 {
        return Fail(InvalidQuantity);
      }
      var snap := queryService.CurrentHoldings(portfolioId);
      var have := VolumeOf(snap, rightSymbol);
      if have < quantity {
        return Fail(NotEnoughRights(rightSymbol, quantity, have));
      }
      UpperIsIdempotent(rightSymbol);
      var e := NewSecurityChange(portfolioId, Upper(rightSymbol), -quantity, Some(now), SellRight, orderId, now).value;
      assert e == SecurityChange(portfolioId, Upper(rightSymbol), -quantity, now, SellRight, orderId);
      AppendEffect(portfolioId, repo.Events(portfolioId), e, Upper(rightSymbol));
      repo.Append(e);
      outcome := Pass;
    }
  }

  /** `StockRightUsageService`: converts rights into shares of the underlying stock, one to one. */
  class StockRightUsageService {
    const repo: InMemorySecurityChangeRepository
    const queryService: PortfolioQueryService

    constructor (repo: InMemorySecurityChangeRepository)
      ensures this.repo == repo && queryService.repo == repo
    {
      this.repo := repo;
      queryService := new PortfolioQueryService(repo);
    }

    /**
     * `useRights`: refused, with nothing appended, for a non-positive quantity or more than the
     * portfolio holds; otherwise a burn of the right and a mint of its stock, appended together.
     */
    method UseRights(portfolioId: string, rightSymbol: string, quantity: int, requestId: string, now: int)
      returns (outcome: Outcome<LedgerError>)
      requires queryService.repo == repo && repo.Valid()
      modifies repo
      ensures repo.Valid()
      ensures quantity <= 0 ==> outcome == Fail(InvalidQuantity) && unchanged(repo)
      ensures quantity > 0 && old(repo.Holding(portfolioId, rightSymbol)) < quantity ==>
        && outcome == Fail(NotEnoughRights(rightSymbol, quantity, old(repo.Holding(portfolioId, rightSymbol))))
        && unchanged(repo)
      ensures quantity > 0 && old(repo.Holding(portfolioId, rightSymbol)) >= quantity ==>
        && outcome == Pass
        && repo.byPortfolio == old(repo.byPortfolio)[portfolioId :=
             old(repo.Events(portfolioId)) + UsageEvents(portfolioId, rightSymbol, quantity, requestId, now)]
    {
      if quantity <= 0 {
        return Fail(InvalidQuantity);
      }
      var snap := queryService.CurrentHoldings(portfolioId);
      var have := VolumeOf(snap, rightSymbol);
      if have < quantity {
        return Fail(NotEnoughRights(rightSymbol, quantity, have));
      }
      var stockSymbol := StockOf(rightSymbol);
      UpperIsIdempotent(rightSymbol);
      UpperIsIdempotent(stockSymbol);
      var burnRights := NewSecurityChange(portfolioId, Upper(rightSymbol), -quantity, Some(now), RightUsage, requestId, now).value;
      var mintStock := NewSecurityChange(portfolioId, Upper(stockSymbol), quantity, Some(now), RightUsage, requestId, now).value;
      var events := [burnRights, mintStock];
      assert events == UsageEvents(portfolioId, rightSymbol, quantity, requestId, now);
      assert AllOf(events, portfolioId);
      ghost var before := repo.byPortfolio;
      repo.AppendAll(events);
      AppendOwn(before, repo.byPortfolio, events, portfolioId);
      outcome := Pass;
    }
  }
}
