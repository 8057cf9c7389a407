/**
 * The scheme-code resolver and the historical-NAV fetch of `NavFetcher`.
 *
 * The AMFI catalog (`Mftool.get_scheme_codes()`, a dict {code: name} in its
 * iteration order), the fuzzy scorer (`process.extractOne`) and the provider's
 * answer for a history request are inputs; the mapping file is a field that
 * holds what `scheme_mapping.json` contains (None when it does not exist).
 */
module NavFetch {
  import opened Wrappers
  import opened Seqs
  import opened Time

  type Code = string
  type SchemeName = string

  /** The catalog as its (code, name) items, in dict iteration order. */
  type Catalog = seq<(Code, SchemeName)>

  /** A similarity score as the fuzzy matcher reports it. */
  type Score = s: int | 0 <= s <= 100

  /** A match is accepted only when its score is strictly above this. */
  const AcceptAbove: int := 80

  /** The fuzzy matcher's answer: the best catalog name and its score. */
  datatype Match = Match(best: SchemeName, score: Score)

  /** The catalog names, in catalog order (`list(scheme_codes.values())`). */
  function Names(catalog: Catalog): (names: seq<SchemeName>)
    ensures |names| == |catalog|
    ensures forall i :: 0 <= i < |catalog| ==> names[i] == catalog[i].1
  {
    seq(|catalog|, i requires 0 <= i < |catalog| => catalog[i].1)
  }

  /** What `load_mappings` reads from the mapping file: its map, or {} when it is absent. */
  function Stored(file: Option<map<SchemeName, Code>>): (m: map<SchemeName, Code>)
    ensures file.None? ==> m == map[]
    ensures file.Some? ==> m == file.value
  {
    file.GetOr(map[])
  }

  /**
   * The outcome of one `get_scheme_code` call: the code returned (None for
   * Python's None), the mappings afterwards, and whether the fuzzy matcher
   * was consulted.
   */
  datatype Resolution = Resolution(code: Option<Code>, mappings: map<SchemeName, Code>, matched: bool)

  /**
   * One call of `get_scheme_code(name)` against `mappings`, where `m` is what
   * the fuzzy matcher answers for `name` (only consulted on a miss).
   */
  function Resolve(mappings: map<SchemeName, Code>, catalog: Catalog, name: SchemeName, m: Match): (res: Resolution)
    ensures forall k :: k in mappings ==> k in res.mappings && res.mappings[k] == mappings[k]
    ensures res.mappings.Keys <= mappings.Keys + {name}
    ensures res.code.Some? <==> name in res.mappings
    ensures res.code.Some? ==> res.mappings[name] == res.code.value
  {
    if name in mappings then Resolution(Some(mappings[name]), mappings, false)
    else if m.score > AcceptAbove then
      match IndexOf(Names(catalog), m.best)
      case Some(i) => Resolution(Some(catalog[i].0), mappings[name := catalog[i].0], true)
      case None => Resolution(None, mappings, true)
    else Resolution(None, mappings, true)
  }

  /** A known name returns its stored code, changes nothing and consults no matcher. */
  lemma ResolveHit(mappings: map<SchemeName, Code>, catalog: Catalog, name: SchemeName, m: Match)
    requires name in mappings
    ensures Resolve(mappings, catalog, name, m) == Resolution(Some(mappings[name]), mappings, false)
  {
  }

  /** On a miss a score of 80 or less is rejected: None, and the mappings stay as they were. */
  lemma ResolveBelowThreshold(mappings: map<SchemeName, Code>, catalog: Catalog, name: SchemeName, m: Match)
    requires name !in mappings && m.score <= AcceptAbove
    ensures Resolve(mappings, catalog, name, m) == Resolution(None, mappings, true)
  {
  }

  /**
   * On a miss with a score above 80 and a catalog entry named like the best
   * match, the code of the first such entry is returned and recorded.
   */
  lemma ResolveAccepted(mappings: map<SchemeName, Code>, catalog: Catalog, name: SchemeName, m: Match, i: nat)
    requires name !in mappings && m.score > AcceptAbove
    requires i < |catalog| && catalog[i].1 == m.best
    requires forall j :: 0 <= j < i ==> catalog[j].1 != m.best
    ensures Resolve(mappings, catalog, name, m) == Resolution(Some(catalog[i].0), mappings[name := catalog[i].0], true)
  {
    var names := Names(catalog);
    assert names[i] == m.best;
    assert forall j :: 0 <= j < i ==> names[j] != m.best;
  }

  /** A score above 80 whose best name is no catalog entry's name still yields None and no change. */
  lemma ResolveNoCatalogEntry(mappings: map<SchemeName, Code>, catalog: Catalog, name: SchemeName, m: Match)
    requires name !in mappings && m.score > AcceptAbove
    requires forall j :: 0 <= j < |catalog| ==> catalog[j].1 != m.best
    ensures Resolve(mappings, catalog, name, m) == Resolution(None, mappings, true)
  {
    assert m.best !in Names(catalog);
  }

  /**
   * Idempotence: once a call returned a code, a second call with the same
   * name returns that code again, whatever the matcher would say, without
   * consulting it and without changing the mappings.
   */
  lemma ResolveIdempotent(mappings: map<SchemeName, Code>, catalog: Catalog, name: SchemeName, m1: Match, m2: Match)
    requires Resolve(mappings, catalog, name, m1).code.Some?
    ensures var first := Resolve(mappings, catalog, name, m1);
            Resolve(first.mappings, catalog, name, m2) == Resolution(first.code, first.mappings, false)
  {
  }

  /** The boundary: with the best name in the catalog, a score of 81 is accepted where 80 is not. */
  lemma ResolveBoundary(mappings: map<SchemeName, Code>, catalog: Catalog, name: SchemeName, best: SchemeName)
    requires name !in mappings && best in Names(catalog)
    ensures Resolve(mappings, catalog, name, Match(best, 80)).code.None?
    ensures Resolve(mappings, catalog, name, Match(best, 81)).code.Some?
  {
  }

  /** The example of a first resolution: a score of 88 against a one-entry catalog records the match. */
  lemma ResolveFirstMatchExample()
    ensures Resolve(map[], [("C1", "Fund X Growth")], "Fund X - Growth Option", Match("Fund X Growth", 88))
         == Resolution(Some("C1"), map["Fund X - Growth Option" := "C1"], true)
  {
    assert Names([("C1", "Fund X Growth")]) == ["Fund X Growth"];
  }

  class NavFetcher {
    const catalog: Catalog
    const names: seq<SchemeName>
    var mappings: map<SchemeName, Code>
    /** The contents of the mapping file; None while the file does not exist. */
    var mappingFile: Option<map<SchemeName, Code>>
    /** How many times the fuzzy matcher has been consulted. */
    ghost var matchCount: nat

    /** The name list is the catalog's, and the in-memory mappings agree with the file. */
    ghost predicate Valid()
      reads this
    {
      names == Names(catalog) && mappings == Stored(mappingFile)
    }

    /** `__init__`: takes the provider's catalog and the mapping file as found, then loads the mappings. */
    constructor (catalog: Catalog, mappingFile: Option<map<SchemeName, Code>>)
      ensures Valid()
      ensures this.catalog == catalog && this.mappingFile == mappingFile && matchCount == 0
      ensures mappings == Stored(mappingFile)
    {
      this.catalog := catalog;
      this.names := Names(catalog);
      this.mappingFile := mappingFile;
      this.mappings := map[];
      this.matchCount := 0;
      new;
      LoadMappings();
    }

    /** `load_mappings`: the mappings become the file's map, or empty when there is no file. */
    method LoadMappings()
      modifies this`mappings
      ensures mappings == Stored(mappingFile)
    {
      match mappingFile
      case Some(m) => mappings := m;
      case None => mappings := map[];
    }

    /** `save_mappings`: the file is rewritten with the current mappings. */
    method SaveMappings()
      modifies this`mappingFile
      ensures mappingFile == Some(mappings)
      ensures Stored(mappingFile) == mappings
    {
      mappingFile := Some(mappings);
    }

    /**
     * `get_scheme_code(name)`: `extractOne` is the fuzzy matcher. The result,
     * the new mappings and whether the matcher was consulted are those of
     * `Resolve`; the file is rewritten exactly when a new mapping is recorded.
     */
    method GetSchemeCode(name: SchemeName, extractOne: (SchemeName, seq<SchemeName>) -> Match) returns (code: Option<Code>)
      requires Valid()
      modifies this`mappings, this`mappingFile, this`matchCount
      ensures Valid()
      ensures var res := Resolve(old(mappings), catalog, name, extractOne(name, names));
              && code == res.code
              && mappings == res.mappings
              && matchCount == old(matchCount) + (if res.matched then 1 else 0)
              && mappingFile == (if name in old(mappings) || code.None? then old(mappingFile) else Some(mappings))
    {
      if name in mappings {
        return Some(mappings[name]);
      }
      var m := extractOne(name, names);
      matchCount := matchCount + 1;
      if m.score > AcceptAbove {
        var i := 0;
        while i < |catalog|
          invariant 0 <= i <= |catalog|
          invariant forall j :: 0 <= j < i ==> catalog[j].1 != m.best
        {
          if catalog[i].1 == m.best {
            ResolveAccepted(old(mappings), catalog, name, m, i);
            mappings := mappings[name := catalog[i].0];
            SaveMappings();
            return Some(catalog[i].0);
          }
          i := i + 1;
        }
        ResolveNoCatalogEntry(old(mappings), catalog, name, m);
      }
      return None;
    }
  }

  /** One point of the provider's history: a `dd-mm-yyyy` date and a NAV, both as text. */
  datatype RawPoint = RawPoint(date: string, nav: string)

  /** A parsed point. */
  datatype NavPoint = NavPoint(date: Instant, nav: real)

  /**
   * The provider's answer to `get_scheme_historical_nav`: it raised, it was
   * empty or had no `data` key, or it carried a `data` list.
   */
  datatype Reply = Raised | NoData | Body(data: seq<RawPoint>)

  function PointDate(p: NavPoint): Instant { p.date }

  /** Python truthiness of a code: neither None nor the empty string. */
  predicate Truthy(code: Option<Code>)
    ensures Truthy(code) <==> code != None && code != Some("")
  {
    code.Some? && code.value != ""
  }

  /**
   * Parses every point with `parseDate` (`pd.to_datetime(format='%d-%m-%Y')`)
   * and `parseNav` (`pd.to_numeric`); both raise on a bad value, so one bad
   * point makes the whole parse fail.
   */
  function ParsePoints(data: seq<RawPoint>, parseDate: string -> Option<Instant>, parseNav: string -> Option<real>): (r: Option<seq<NavPoint>>)
    ensures r.Some? <==> forall i :: 0 <= i < |data| ==> parseDate(data[i].date).Some? && parseNav(data[i].nav).Some?
    ensures r.Some? ==> |r.value| == |data|
    ensures r.Some? ==> forall i :: 0 <= i < |data| ==>
              r.value[i] == NavPoint(parseDate(data[i].date).value, parseNav(data[i].nav).value)
  {
    if |data| == 0 then Some([])
    else
      var init := data[..|data| - 1];
      var last := data[|data| - 1];
      match ParsePoints(init, parseDate, parseNav)
      case None => None
      case Some(ps) =>
        if parseDate(last.date).Some? && parseNav(last.nav).Some? then
          Some(ps + [NavPoint(parseDate(last.date).value, parseNav(last.nav).value)])
        else None
  }

  /**
   * `fetch_historical_nav(code)`, with `reply` the provider's answer for it.
   * None for a falsy code, a provider fault, a reply without data, an empty
   * data list (the frame then has no `date` column) or an unparsable point;
   * otherwise every parsed point, none added or removed, in ascending date order.
   */
  function FetchHistoricalNav(code: Option<Code>, reply: Reply,
                              parseDate: string -> Option<Instant>, parseNav: string -> Option<real>): (r: Option<seq<NavPoint>>)
    ensures !Truthy(code) || reply.Raised? || reply.NoData? ==> r.None?
    ensures r.Some? <==> Truthy(code) && reply.Body? && |reply.data| > 0 && ParsePoints(reply.data, parseDate, parseNav).Some?
    ensures r.Some? ==> |r.value| > 0 && SortedBy(r.value, PointDate)
    ensures r.Some? ==> multiset(r.value) == multiset(ParsePoints(reply.data, parseDate, parseNav).value)
  {
    if !Truthy(code) then None
    else match reply
      case Raised => None
      case NoData => None
      case Body(data) =>
        if |data| == 0 then None
        else match ParsePoints(data, parseDate, parseNav)
          case None => None
          case Some(points) => Some(SortBy(points, PointDate))
  }
}
