/**
 * `CapitalRaiseParser`: the one-line announcement `CAPITAL_RAISE <SYMBOL> <PER_SHARE>`. Unlike
 * the event-sourced service, it matches the verb case-sensitively and keeps the symbol as given.
 */
module AnnouncementParser {
  import opened Wrappers
  import opened Text
  import opened Decimal

  /** `CapitalRaiseMsg`: the stock symbol and the rights granted per share. */
  datatype CapitalRaiseMsg = CapitalRaiseMsg(symbol: string, perShare: Ratio)

  /** The `IllegalArgumentException`s of `parse`. */
  datatype ParseError =
    | NullMessage             // "Message is null"
    | WrongArity              // "Expected 3 parts"
    | UnknownVerb(verb: string)
    | NotANumber              // "Per-share must be a number"

  const Verb: string := "CAPITAL_RAISE"

  /**
   * `parse`: a null message is refused first; then the trimmed message must split into exactly
   * three whitespace-separated parts, the first of which is the verb exactly, the third a number.
   */
  function Parse(msg: Option<string>): (r: Result<CapitalRaiseMsg, ParseError>)
    ensures r == Failure(NullMessage) <==> msg.None?
    ensures r.Success? ==> IsRun(r.value.symbol)
  {
    match msg
    case None => Failure(NullMessage)
    case Some(m) =>
      var parts := Tokens(m);
      if |parts| != 3 then Failure(WrongArity)
      else if parts[0] != Verb then Failure(UnknownVerb(parts[0]))
      else
        match ParseDecimal(parts[2])
        case None => Failure(NotANumber)
        case Some(q) =>
          TokensAreRuns(m);
          assert parts[1] in parts;
          Success(CapitalRaiseMsg(parts[1], q))
  }

  /**
   * A message rendered from three tokens parses back: an unknown verb is reported as such, a
   * third token that is not a number is refused, and otherwise the symbol comes back verbatim
   * with the number's value.
   */
  lemma ParseOfJoin(verb: string, symbol: string, number: string)
    requires IsToken(verb) && IsToken(symbol) && IsToken(number)
    ensures Parse(Some(JoinSpaced([verb, symbol, number]))) ==
      if verb != Verb then Failure(UnknownVerb(verb))
      else if ParseDecimal(number).None? then Failure(NotANumber)
      else Success(CapitalRaiseMsg(symbol, ParseDecimal(number).value))
  {
    var parts := [verb, symbol, number];
    ThreeTokens(verb, symbol, number);
    TokensOfJoin(parts);
    assert Tokens(JoinSpaced(parts)) == parts;
  }

  /**
   * A message that does not split into exactly three parts is refused for its arity, whatever its
   * spacing: a blank message (one empty part), tabs and runs of whitespace included.
   */
  lemma ParseRejectsArity(m: string)
    requires |Tokens(m)| != 3
    ensures Parse(Some(m)) == Failure(WrongArity)
  {
  }

  /** In particular, words joined by single spaces are refused when there are not three of them. */
  lemma ParseRejectsArityOfJoin(words: seq<string>)
    requires AllTokens(words) && |words| >= 1 && |words| != 3
    ensures Parse(Some(JoinSpaced(words))) == Failure(WrongArity)
  {
    TokensOfJoin(words);
    ParseRejectsArity(JoinSpaced(words));
  }

  /** A message of nothing but whitespace splits into one empty part, so it is refused for its arity. */
  lemma ParseRejectsBlank(m: string)
    requires forall i :: 0 <= i < |m| ==> IsTrimmable(m[i])
    ensures Parse(Some(m)) == Failure(WrongArity)
  {
    BlankTrimsToEmpty(m);
    ParseRejectsArity(m);
  }
}
