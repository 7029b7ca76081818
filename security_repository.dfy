/** `SecurityRepository`: two indexes of the known securities, one by ISIN and one by symbol. */
module SecurityStore {
  import opened Wrappers
  import opened Actions

  class SecurityRepository {
    var byIsin: map<string, Security>
    var bySymbol: map<string, Security>

    constructor ()
      ensures byIsin == map[] && bySymbol == map[]
    {
      byIsin := map[];
      bySymbol := map[];
    }

    /** `findSecurityByIsin`: the security last added under `isin`, none (Java `null`) if there is none. */
    function FindSecurityByIsin(isin: string): (r: Option<Security>)
      reads this
      ensures r.Some? <==> isin in byIsin
      ensures r.Some? ==> r.value == byIsin[isin] && r.value in AllSecurities()
    {
      if isin in byIsin then Some(byIsin[isin]) else None
    }

    /** `findSecurityBySymbol`: the security last added under `symbol`, none (Java `null`) if there is none. */
    function FindSecurityBySymbol(symbol: string): (r: Option<Security>)
      reads this
      ensures r.Some? <==> symbol in bySymbol
      ensures r.Some? ==> r.value == bySymbol[symbol]
    {
      if symbol in bySymbol then Some(bySymbol[symbol]) else None
    }

    /** `allSecurities`: the values of the ISIN index. */
    function AllSecurities(): (r: set<Security>)
      reads this
      ensures forall s :: s in r <==> exists isin :: isin in byIsin && byIsin[isin] == s
    {
      byIsin.Values
    }

    /**
     * `addSecurity`: files the security under its ISIN and under its symbol, replacing whatever
     * either key held; every other key keeps its security.
     */
    method AddSecurity(s: Security)
      modifies this
      ensures byIsin == old(byIsin)[s.isin := s]
      ensures bySymbol == old(bySymbol)[s.symbol := s]
      ensures FindSecurityByIsin(s.isin) == Some(s)
      ensures FindSecurityBySymbol(s.symbol) == Some(s)
      ensures s in AllSecurities()
      ensures forall isin :: isin != s.isin ==> FindSecurityByIsin(isin) == old(FindSecurityByIsin(isin))
      ensures forall sym :: sym != s.symbol ==> FindSecurityBySymbol(sym) == old(FindSecurityBySymbol(sym))
    {
      byIsin := byIsin[s.isin := s];
      bySymbol := bySymbol[s.symbol := s];
    }

    /** `clear`: empties both indexes, so every lookup finds nothing. */
    method Clear()
      modifies this
      ensures byIsin == map[] && bySymbol == map[]
      ensures forall isin :: FindSecurityByIsin(isin) == None
      ensures forall sym :: FindSecurityBySymbol(sym) == None
      ensures AllSecurities() == {}
    {
      byIsin := map[];
      bySymbol := map[];
    }
  }

  /** The repository test: `FOOLAD` added to a cleared repository, then looked up by its symbol and by an unknown one. */
  method SymbolLookupExample() returns (found: Option<Security>, missing: Option<Security>)
    ensures found == Some(Security(1, "foolad-mobarake", "FOOLAD", "1234567890"))
    ensures missing == None
  {
    var repo := new SecurityRepository();
    var foo := Security(1, "foolad-mobarake", "FOOLAD", "1234567890");
    repo.AddSecurity(foo);
    found := repo.FindSecurityBySymbol("FOOLAD");
    missing := repo.FindSecurityBySymbol("NOPE");
  }
}
