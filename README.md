# WealthWise rights ledger, modelled in Dafny

WealthWise keeps track of the stocks a portfolio holds and of the *rights* attached to them.
A right is a separate instrument whose symbol is the stock symbol plus `_X`. Rights are granted
when a company announces a capital raise, then bought, sold or turned into shares one for one.
A portfolio's holdings are never stored. They are always recomputed by folding a history.

The repository holds this ledger twice, and the model keeps the two apart.

- **Event-sourced ledger** (`P.java`; modules `Ledger`, `EventLog`, `RightsServices`).
  - The history is a log of signed `SecurityChange` events, one appended list per portfolio.
  - The read model sums each symbol's deltas and drops zero entries.
  - The capital-raise, trading and usage services read the current holdings, validate, then append.
- **Action-based ledger** (`src/main/java`; modules `Actions`, `ActionStore`, `SecurityStore`,
  `ActionRights`, `ActionCapitalRaise`, `StockSummary`, `AnnouncementParser`).
  - The history is a repository of typed actions (buy, sale, capital raise, right usage) keyed by uuid.
  - Each service folds the actions it cares about into a count before it decides what to save.
  - The portfolio summary reports per-security volume and value on a day, sorted by name.
  - The announcement parser checks the one-line `CAPITAL_RAISE <SYMBOL> <PER_SHARE>` message.

Shared modules:

- `Wrappers`: option, result and pass/fail outcome types. Every exception the services throw
  becomes a `Fail` or `Failure` value.
- `Text`: ASCII upper-casing, `trim`, whitespace splitting and lexicographic order.
- `Decimal`: exact ratios, floor of a product, and a decimal-literal parser.
- `Folds`: a sum over a sequence, and the sum over a set taken through any listing of it.
- `Sorting`: an insertion sort that keeps the elements and orders them.

Representation choices:

- **Classes and state.** Repositories and services are classes. The repositories' maps are fields
  that their methods reassign. The services' loops are `for`/`while` loops, each proved against a
  specification function.
- **Time.** Dates and times are integer timestamps in nanoseconds. The current time is a parameter.
- **Ids.** The random uuids the source draws are parameters too.
- **Security identity.** In the action-based ledger, `Security` does not override `equals`, so the
  model gives each security an object id (`oid`).

In the event-sourced ledger the model follows the code on these points:

- A portfolio's events are returned in append order, not sorted by timestamp.
- `appendAll` appends one event at a time. The events are already valid, because the constructor
  refuses a zero delta.
- The per-share ratio may be negative, because it is parsed from any number. The grant check
  is `== 0`, so a negative ratio appends a negative "grant": see `RightsServices.NegativeRatioRevokes`.

## Model

| member | source | states |
|---|---|---|
| Ledger.NewSecurityChange | WealthWise/src/main/P.java:135-149 | fails exactly when the delta is 0; otherwise keeps portfolio, delta, type and reference, stores the symbol upper-cased (equal to the given one ignoring case) and uses `now` when no time is given |
| Ledger.Rebuild | WealthWise/src/main/P.java:221-230 | the snapshot maps every symbol to the sum of the deltas of exactly the portfolio's events on it (0 when absent) and holds no zero entry; negative nets are kept |
| Ledger.UpTo | WealthWise/src/main/P.java:236 | the filtered log is never longer than the log |
| Ledger.UpToFilters | WealthWise/src/main/P.java:236 | keeps each event not after the cutoff (inclusive) exactly as many times as the log holds it, and no other event |
| Ledger.UpToAppend | WealthWise/src/main/P.java:236 | filtering distributes over concatenation, so the kept events stay in log order |
| Ledger.RebuildUpTo | WealthWise/src/main/P.java:232-241 | the snapshot is the `Rebuild` summary of the events at or before the cutoff |
| Ledger.SummaryIsUnique | WealthWise/src/main/P.java:221-230 | two snapshots that both summarise the same portfolio and events are equal, so the rebuild is deterministic |
| Ledger.UpToAll | WealthWise/src/main/P.java:232-241 | a cutoff no event passes leaves the events unchanged, so `rebuildUpTo` then equals `rebuild` |
| Ledger.OfPortfolioMembers | WealthWise/src/main/P.java:224 | the events kept are exactly those of the portfolio |
| Ledger.NetIgnoresOtherPortfolios | WealthWise/src/main/P.java:223-225 | a portfolio's net volume over a log equals its net over its own events only |
| Ledger.NetAppend | WealthWise/src/main/P.java:225 | the net over two concatenated logs is the sum of the nets |
| Ledger.RightOf | WealthWise/src/main/P.java:250 | the right symbol is upper-case and ends in `_X` |
| Ledger.StockOfRightOf | WealthWise/src/main/P.java:249-254 | the right of any symbol is a right symbol, and `stockOf(rightOf(s))` is `s` upper-cased |
| Ledger.RightOfStockOf | WealthWise/src/main/P.java:249-254 | for a right symbol `x`, `rightOf(stockOf(x))` is `x` upper-cased |
| Ledger.StockOfIsIdentityExactlyOnNonRights | WealthWise/src/main/P.java:251-253 | `stockOf(x) == x` if and only if `x` upper-cased does not end in `_X` |
| EventLog.InMemorySecurityChangeRepository.constructor | WealthWise/src/main/P.java:454 | the log starts empty |
| EventLog.InMemorySecurityChangeRepository.Append | WealthWise/src/main/P.java:456-458 | the event is added at the end of its portfolio's list, created if absent; other lists are unchanged |
| EventLog.InMemorySecurityChangeRepository.AppendAll | WealthWise/src/main/P.java:460-462 | every portfolio's list grows by exactly its own events of the batch, in batch order, and the known portfolios grow by those the batch touches |
| EventLog.InMemorySecurityChangeRepository.FindByPortfolio | WealthWise/src/main/P.java:464-466 | returns the portfolio's list (empty when it has none), all of whose events belong to it |
| EventLog.InMemorySecurityChangeRepository.FindByPortfolioUpTo | WealthWise/src/main/P.java:468-470 | returns the portfolio's events not after the cutoff, in append order |
| EventLog.InMemorySecurityChangeRepository.ListPortfolioIds | WealthWise/src/main/P.java:472 | returns every portfolio that has a list, each exactly once |
| RightsServices.ParseAnnouncement | WealthWise/src/main/P.java:308-313 | a parsed symbol is upper-case; a refusal is either an invalid message or not-a-number |
| RightsServices.ParseAnnouncementAccepts | WealthWise/src/main/P.java:308-313 | three tokens whose verb is `CAPITAL_RAISE` ignoring case are refused as not-a-number exactly when the third token does not parse, and otherwise parse to the upper-cased symbol and that number's value |
| RightsServices.ParseAnnouncementRejects | WealthWise/src/main/P.java:309-311 | a message without exactly three tokens, or with another verb, is refused as invalid |
| RightsServices.GrantRoundsDown | WealthWise/src/main/P.java:320-321 | with a non-negative ratio the grant is the largest whole number not above held × ratio, and never negative |
| RightsServices.NegativeRatioRevokes | WealthWise/src/main/P.java:320-324 | a negative ratio yields a negative grant for a holder, which the `== 0` check lets through |
| RightsServices.ProportionalGrantExample | WealthWise/src/main/P.java:504-515 | at ratio 1/2, 100 shares earn 50 rights, 200 earn 100 and 0 earn none |
| RightsServices.GrantBatchOfPortfolio | WealthWise/src/main/P.java:316-325 | when each portfolio is visited once, the batch holds exactly each visited portfolio's own grant events and none for others |
| RightsServices.AnnouncementEffect | WealthWise/src/main/P.java:319-324 | a grant moves only the right of the announced stock, by `floor(held × ratio)` |
| RightsServices.AppendEffect | WealthWise/src/main/P.java:456-458 | appending one event moves only its own portfolio and symbol, by its delta |
| RightsServices.UsageEffect | WealthWise/src/main/P.java:405-411 | a usage takes the quantity from the right and adds it to the stock |
| RightsServices.StockDiffersFromRight | WealthWise/src/main/P.java:405-410 | for a right symbol, the stock it converts into is a different symbol, so burn and mint do not cancel out |
| RightsServices.PortfolioQueryService.CurrentHoldings | WealthWise/src/main/P.java:274-276 | the snapshot summarises the portfolio's whole log, and `volumeOf` any symbol is its net holding |
| RightsServices.CapitalRaiseService.ProcessAnnouncement | WealthWise/src/main/P.java:307-327 | a malformed message fails with its error and leaves the log unchanged; otherwise every portfolio's list grows by exactly its grant events, computed from the log as it was |
| RightsServices.CapitalRaiseService.GrantFor | WealthWise/src/main/P.java:318-324 | one turn of the loop yields the portfolio's grant events: none for a holding of zero or less or a grant that rounds down to zero, else one event of `floor(held × perShare)` on the right |
| RightsServices.CapitalRaiseService.Allocate | WealthWise/src/main/P.java:316-326 | every portfolio's list grows by exactly its grant events: one on the right when the grant is non-zero, none otherwise |
| RightsServices.RightTradingService.BuyRights | WealthWise/src/main/P.java:352-357 | a quantity of 0 or less fails and changes nothing; otherwise appends one `+quantity` event on the upper-cased right, raising the holding by exactly the quantity |
| RightsServices.RightTradingService.SellRights | WealthWise/src/main/P.java:359-366 | a quantity of 0 or less, or above the holding, fails (reporting the holding) and changes nothing; otherwise appends one `-quantity` event, leaving a holding of at least 0 |
| RightsServices.StockRightUsageService.UseRights | WealthWise/src/main/P.java:399-412 | a quantity of 0 or less, or above the right holding, fails and changes nothing; otherwise appends the burn of the right and the mint of its stock, together and only to that portfolio |
| Text.Upper | WealthWise/src/main/P.java:144 | upper-casing keeps the length and maps each character |
| Text.TokensOfJoin | WealthWise/src/main/P.java:308 | splitting the trimmed text of tokens joined by spaces gives back the tokens |
| Text.TokensAreRuns | WealthWise/src/main/java/com/bourse/wealthwise/messaging/CapitalRaiseParser.java:23 | the split of a trimmed message is a single empty part or non-empty runs without whitespace |
| Text.LexLeTotal | WealthWise/src/main/java/com/bourse/wealthwise/domain/services/PortfolioStockSummaryService.java:52 | any two names are ordered one way or the other |
| Text.LexLeTransitive | WealthWise/src/main/java/com/bourse/wealthwise/domain/services/PortfolioStockSummaryService.java:52 | the name order is transitive |
| Decimal.FloorTimes | WealthWise/src/main/P.java:321 | the result is the floor of n × ratio: r·den ≤ n·num < (r+1)·den |
| Decimal.ParseDecimalAcceptsExactlyLiterals | WealthWise/src/main/P.java:313 | a token parses as a number if and only if it is a signed decimal literal |
| Decimal.ParseDecimalValue | WealthWise/src/main/P.java:313 | `whole.fraction` parses to the exact value of its digits over the power of ten of the fraction, that is `whole × 10^|fraction| + fraction` over `10^|fraction|` |
| Decimal.ParseDecimalInteger | WealthWise/src/main/P.java:313 | a run of digits parses to its integer value |
| Sorting.InsertionSort | WealthWise/src/main/java/com/bourse/wealthwise/repository/ActionRepository.java:27 | the result is a permutation of the input, sorted by the given total order |
| Actions.SecurityChanges | WealthWise/src/main/java/com/bourse/wealthwise/domain/entity/action/StockRightUsage.java:50-74 | every change carries the action's portfolio and uuid |
| Actions.BalanceChanges | WealthWise/src/main/java/com/bourse/wealthwise/domain/entity/action/StockRightUsage.java:36-48 | every cash change carries the action's portfolio and uuid |
| Actions.UsageConservesUnits | WealthWise/src/main/java/com/bourse/wealthwise/domain/entity/action/StockRightUsage.java:50-74 | a usage yields exactly two changes, both tradable, whose volumes sum to zero |
| Actions.GrantIsOneLockedChange | WealthWise/src/main/java/com/bourse/wealthwise/domain/entity/action/CapitalRaise.java:31-49 | a grant yields exactly one non-tradable change carrying its whole volume, and no cash change |
| Actions.UsageDebitsCost | WealthWise/src/main/java/com/bourse/wealthwise/domain/entity/action/StockRightUsage.java:36-48 | a usage yields exactly one cash change, of minus rights used × price per right |
| Actions.RightsDeltaMatchesChanges | WealthWise/src/main/java/com/bourse/wealthwise/domain/services/RightTradingService.java:51-61 | for grants and usages, the rights count moves the right by exactly what the action's own changes move it |
| Actions.SharesIgnoreUsage | WealthWise/src/main/java/com/bourse/wealthwise/domain/services/CapitalRaiseService.java:34-40 | a usage's changes add the rights used to the stock, while the share count adds nothing for it |
| Actions.UsageExample | WealthWise/src/test/java/com/bourse/wealthwise/domain/entity/action/StockRightUsageActionTest.java:21-46 | using 5 rights at 100 burns 5 of the right, mints 5 of the stock and debits 500 |
| Actions.EndOfDay | WealthWise/src/main/java/com/bourse/wealthwise/domain/services/PortfolioStockSummaryService.java:29 | the cutoff is 23:59:59 of the day: inside the day and exactly one second before the next day begins, so a later fraction of that second is excluded |
| ActionStore.ByDatetimeIsTotalOrder | WealthWise/src/main/java/com/bourse/wealthwise/repository/ActionRepository.java:27 | ordering by datetime is total and transitive |
| ActionStore.ValuesAfterInsert | WealthWise/src/main/java/com/bourse/wealthwise/repository/ActionRepository.java:15-18 | storing an action under a new uuid keeps every action under its own uuid and adds exactly that action |
| ActionStore.ActionsAfterInsert | WealthWise/src/main/java/com/bourse/wealthwise/repository/ActionRepository.java:15-18 | a new action joins its own portfolio's actions (and those up to any time it does not exceed), and no other |
| ActionStore.ActionRepository.constructor | WealthWise/src/main/java/com/bourse/wealthwise/repository/ActionRepository.java:13 | the repository starts empty |
| ActionStore.ActionRepository.FindById | WealthWise/src/main/java/com/bourse/wealthwise/repository/ActionRepository.java:20-22 | finds something exactly when the uuid is stored, and what it finds carries that uuid and is among its portfolio's actions |
| ActionStore.ActionRepository.Save | WealthWise/src/main/java/com/bourse/wealthwise/repository/ActionRepository.java:15-18 | returns the action, stores it under its uuid (replacing any earlier one) and `findById` then yields it |
| ActionStore.ActionRepository.DeleteById | WealthWise/src/main/java/com/bourse/wealthwise/repository/ActionRepository.java:31-33 | removes only that uuid: it is no longer found and every other lookup is unchanged |
| ActionStore.ActionRepository.Clear | WealthWise/src/main/java/com/bourse/wealthwise/repository/ActionRepository.java:44-46 | afterwards no uuid is found and every portfolio query is empty |
| ActionStore.ActionRepository.Select | WealthWise/src/main/java/com/bourse/wealthwise/repository/ActionRepository.java:36-38 | returns exactly the stored actions of the portfolio (not after the cutoff, when there is one), each once |
| ActionStore.ActionRepository.FindAllActionsOf | WealthWise/src/main/java/com/bourse/wealthwise/repository/ActionRepository.java:24-29 | returns exactly the portfolio's stored actions, each once, in non-decreasing datetime |
| ActionStore.ActionRepository.FindAllActionsOfUntilDate | WealthWise/src/main/java/com/bourse/wealthwise/repository/ActionRepository.java:35-41 | returns exactly the portfolio's actions with datetime not after the cutoff (inclusive), each once, in non-decreasing datetime |
| SecurityStore.SecurityRepository.constructor | WealthWise/src/main/java/com/bourse/wealthwise/repository/SecurityRepository.java:10-11 | both indexes start empty |
| SecurityStore.SecurityRepository.FindSecurityByIsin | WealthWise/src/main/java/com/bourse/wealthwise/repository/SecurityRepository.java:13-15 | finds a security exactly when the ISIN is indexed, namely the one indexed under it, which is one of all securities |
| SecurityStore.SecurityRepository.FindSecurityBySymbol | WealthWise/src/main/java/com/bourse/wealthwise/repository/SecurityRepository.java:17-19 | finds a security exactly when the symbol is indexed, namely the one indexed under it; none (`null`) otherwise |
| SecurityStore.SecurityRepository.AllSecurities | WealthWise/src/main/java/com/bourse/wealthwise/repository/SecurityRepository.java:31-33 | exactly the securities some ISIN maps to |
| SecurityStore.SecurityRepository.AddSecurity | WealthWise/src/main/java/com/bourse/wealthwise/repository/SecurityRepository.java:21-24 | afterwards both lookups return the security and it is among all securities; only its own ISIN and symbol keys change |
| SecurityStore.SecurityRepository.Clear | WealthWise/src/main/java/com/bourse/wealthwise/repository/SecurityRepository.java:26-29 | afterwards no lookup finds anything and there are no securities |
| SecurityStore.SymbolLookupExample | WealthWise/src/test/java/com/bourse/wealthwise/repository/SecurityRepositorySymbolTest.java:23-43 | after adding `FOOLAD`, looking it up by symbol returns it, and looking up `NOPE` returns none |
| ActionRights.RightsOwnedAfterSave | WealthWise/src/main/java/com/bourse/wealthwise/domain/services/RightTradingService.java:47-63 | saving a new action moves the rights owned at `t` by that action's count only if it is the portfolio's and not after `t` |
| ActionRights.BuyFiveSellThree | WealthWise/src/test/java/com/bourse/wealthwise/domain/services/RightTradingServiceTest.java:37-44 | starting with no rights, buying 5 and then selling 3 leaves 2 owned at the time of the sale |
| ActionRights.RightsOwnedUpTo | WealthWise/src/main/java/com/bourse/wealthwise/domain/services/StockRightUsageService.java:55-70 | the loop total equals buys and grants less sales and usages of the right, over the portfolio's actions not after the cutoff |
| ActionRights.RightTradingService.BuyRights | WealthWise/src/main/java/com/bourse/wealthwise/domain/services/RightTradingService.java:23-32 | a quantity of 0 or less fails and saves nothing; otherwise saves one buy of the right at `when`, raising the rights owned from `when` on by exactly the quantity |
| ActionRights.RightTradingService.SellRights | WealthWise/src/main/java/com/bourse/wealthwise/domain/services/RightTradingService.java:34-45 | a quantity of 0 or less, or above the rights owned at `when`, fails and saves nothing; otherwise saves one sale, lowering the rights owned by the quantity and never below 0 |
| ActionRights.StockRightUsageService.UseRights | WealthWise/src/main/java/com/bourse/wealthwise/domain/services/StockRightUsageService.java:29-53 | checks the quantity, then that the stock and its `_X` right exist, then the rights owned at `now`, each failure saving nothing; otherwise saves one usage at price 100, lowering the rights owned by the quantity and never below 0 |
| ActionCapitalRaise.SharesAfterSave | WealthWise/src/main/java/com/bourse/wealthwise/domain/services/CapitalRaiseService.java:33-40 | saving a new action moves a portfolio's shares only by what that action buys or sells |
| ActionCapitalRaise.RaisedKeepsOthers | WealthWise/src/main/java/com/bourse/wealthwise/domain/services/CapitalRaiseService.java:32-52 | the announcement leaves every other uuid as it was |
| ActionCapitalRaise.RaisedGrants | WealthWise/src/main/java/com/bourse/wealthwise/domain/services/CapitalRaiseService.java:42-51 | each portfolio gets one capital raise on the right with volume `floor(shares × perShare)`, dated `now`, exactly when that is positive |
| ActionCapitalRaise.CapitalRaiseService.CurrentShares | WealthWise/src/main/java/com/bourse/wealthwise/domain/services/CapitalRaiseService.java:33-40 | the inner loop counts buys less sales of the stock over all the portfolio's actions, with no cutoff |
| ActionCapitalRaise.CapitalRaiseService.ProcessAnnouncement | WealthWise/src/main/java/com/bourse/wealthwise/domain/services/CapitalRaiseService.java:25-53 | an unknown stock or right fails and saves nothing; otherwise the repository becomes the announcement's result over all portfolios |
| ActionCapitalRaise.CapitalRaiseService.Allocate | WealthWise/src/main/java/com/bourse/wealthwise/domain/services/CapitalRaiseService.java:32-52 | the portfolio loop leaves the repository as the announcement's result, with grants computed from shares the loop does not change |
| ActionCapitalRaise.GrantExamples | WealthWise/src/test/java/com/bourse/wealthwise/domain/services/CapitalRaiseServiceTest.java:57-68 | 10 shares at 0.3 earn 3 rights, and at 0.25 earn 2 |
| StockSummary.ByNameIsTotal | WealthWise/src/main/java/com/bourse/wealthwise/domain/services/PortfolioStockSummaryService.java:52 | any two summaries are ordered by name one way or the other |
| StockSummary.UntradedVolume | WealthWise/src/main/java/com/bourse/wealthwise/domain/services/PortfolioStockSummaryService.java:33-39 | a security that no buy or sale touches has volume 0 |
| StockSummary.PortfolioStockSummaryService.Volumes | WealthWise/src/main/java/com/bourse/wealthwise/domain/services/PortfolioStockSummaryService.java:31-39 | the map has an entry for exactly the securities bought or sold, each holding buys less sales |
| StockSummary.PortfolioStockSummaryService.Summaries | WealthWise/src/main/java/com/bourse/wealthwise/domain/services/PortfolioStockSummaryService.java:41-50 | one summary per entry, with the entry's volume and price × volume (price 0 when none is recorded) |
| StockSummary.PortfolioStockSummaryService.GetSecuritiesSummary | WealthWise/src/main/java/com/bourse/wealthwise/domain/services/PortfolioStockSummaryService.java:28-54 | exactly one summary per security bought or sold up to 23:59:59 of the day, with its net volume (negative when oversold) and its value, sorted by name; empty for a portfolio without actions |
| AnnouncementParser.Parse | WealthWise/src/main/java/com/bourse/wealthwise/messaging/CapitalRaiseParser.java:21-34 | fails as a null message exactly when there is none; a parsed symbol is non-empty and has no whitespace |
| AnnouncementParser.ParseOfJoin | WealthWise/src/main/java/com/bourse/wealthwise/messaging/CapitalRaiseParser.java:21-34 | three tokens parse to an unknown-verb error unless the verb is exactly `CAPITAL_RAISE`, then to not-a-number unless the third is a number, else to the symbol verbatim and the number's value |
| AnnouncementParser.ParseRejectsArity | WealthWise/src/main/java/com/bourse/wealthwise/messaging/CapitalRaiseParser.java:23-24 | any message whose trimmed whitespace split does not give three parts fails with the wrong-arity error |
| AnnouncementParser.ParseRejectsArityOfJoin | WealthWise/src/main/java/com/bourse/wealthwise/messaging/CapitalRaiseParser.java:23-24 | words joined by single spaces fail for arity unless there are three of them |
| AnnouncementParser.ParseRejectsBlank | WealthWise/src/main/java/com/bourse/wealthwise/messaging/CapitalRaiseParser.java:23-24 | a message of whitespace only splits into one empty part and fails for arity |

## Left out

- Concurrency. The concurrent maps and the absence of locking around check-then-append are not
  modelled. Every call is sequential.
- Clock and random ids. `LocalDateTime.now()` is the parameter `now`. The action uuids are the
  parameters `uuid` and `uuids`.
- `Ledger.SecurityChange`: the event's own `id` is not modelled. The source draws it with
  `UUID.randomUUID()` in the constructor and never reads it. Events are values here, so two events
  with equal fields are equal. In the source every event is a distinct object.
- Ids and times of derived changes. The uuid and datetime that each derived security or balance change
  draws for itself are not modelled.
- Floating point. `double` ratios are exact ratios (`Ratio`), and `Math.floor` is integer division.
- Number parsing. `Double.parseDouble` is modelled only for plain decimal literals `[+-]digits[.digits]`.
  Exponents, hexadecimal, `NaN`, `Infinity` and type suffixes are not accepted.
- Machine integers. `long` and `int` arithmetic is unbounded: the overflow of `Long::sum` and
  `Integer::sum`, and `longValue()`/`intValue()` truncation of `BigInteger` volumes, are not
  modelled.
- Case mapping. `toUpperCase`/`equalsIgnoreCase` are ASCII-only. Name order compares characters, not
  UTF-16 code units with surrogate handling.
- `RightsServices.RightTradingService.BuyRights`: the ignored `double` price parameter is dropped.
  The same holds for `SellRights` in both ledgers and for `ActionRights.RightTradingService.BuyRights`.
- `StockSummary.PortfolioStockSummaryService.GetSecuritiesSummary`:
  - `SecurityPriceRepository` is not part of this model. Prices are a map from ISIN to an integer
    price for the day.
  - The value is an integer product, not a `BigDecimal`.
  - `List.sort` is stable. The model proves only that the result is a sorted permutation, so the
    relative order of two summaries whose securities share a name is not stated.
- `ActionCapitalRaise.CapitalRaiseService.ProcessAnnouncement` requires the uuids it is given to be
  distinct and not yet stored. The source draws them at random, so they are fresh in practice.
- `ActionCapitalRaise.CapitalRaiseService.ProcessAnnouncement`: the portfolio repository is not part
  of this model. Its list of portfolios is a parameter.
- Fresh uuids in the rights services. `ActionRights.RightTradingService.BuyRights`, `SellRights` and
  `ActionRights.StockRightUsageService.UseRights` state how rights owned change only when the new
  uuid is not already stored. Their new-state equations hold either way.
- Null arguments. No null is modelled except the parser's null message. `Objects.requireNonNull`
  checks and null timestamps in the action-based ledger are left out.
- Collection order. Hash-map iteration order is modelled as an arbitrary choice. Stream sorting and
  `ArrayList` copies are modelled on values (`seq`), not in place.
- `SecurityStore.SecurityRepository.AllSecurities`: returns a `set`, so a security filed under two
  ISINs appears once, where Java's `values()` lists it twice. That happens only if a security's ISIN
  changes between two adds.
- Data carriers. The setters and `securityType` of `Security` and the fields of the `Portfolio`
  entity are not modelled. Portfolios are their uuid strings.
- Not part of this model:
  - `Buy`, `Sale`, `BaseAction` and their `getSecurityChanges`;
  - `ActionDescriptionVisitor` (text formatting);
  - the JMS listener, adapters, producer and consumer, and the Spring wiring at the end of `P.java`.
- Concrete test figures. Test scenarios that need string literals run through the tokenizer or the
  symbol policy are covered by the general lemmas (`ParseOfJoin`, `ParseRejectsArity`, `UsageEffect`,
  `AppendEffect`), not restated with the test's own strings. These are the parser tests, the
  trading test's 120 + 30 = 150 and the usage test's 60 → 20.
