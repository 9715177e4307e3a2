/**
 The country list page: the search / region / population filter pipeline over
 the fetched countries, the "load more" reveal count, the fetch life cycle,
 and the conditions under which the page shows its spinner, its error panel,
 "no results" and the "Load More" button.
 */
module CountryList {
  import opened Wrappers
  import opened Sequences
  import opened Text
  import opened Countries

  /** How many more countries each "Load More" reveals, and how many show at first. */
  const PageSize: nat := 10
  /** Population bucket thresholds: "small" is below the first, "large" above the second. */
  const SmallBelow: nat := 10_000_000
  const LargeAbove: nat := 50_000_000
  const LoadFailedMessage: string := "Failed to load countries. Please try again later."

  /** The three user-chosen filter values. */
  datatype Filters = Filters(query: string, region: string, population: string)

  const InitialFilters: Filters := Filters("", "All", "all")

  /** Case-insensitive substring search on the common name; a nameless record never matches. */
  predicate MatchesSearch(c: Country, query: string) {
    c.commonName.Some? && Includes(Lower(c.commonName.value), Lower(query))
  }

  /** "All" is a wildcard; any other value needs exact, case-sensitive equality. */
  predicate MatchesRegion(c: Country, region: string) {
    region == "All" || c.region == region
  }

  /** The population buckets; a value other than the three named ones keeps everything. */
  predicate MatchesPopulation(c: Country, bucket: string) {
    if bucket == "small" then c.population < SmallBelow
    else if bucket == "medium" then SmallBelow <= c.population <= LargeAbove
    else if bucket == "large" then c.population > LargeAbove
    else true
  }

  /** A country survives the pipeline iff it passes all three filters. */
  predicate Matches(c: Country, f: Filters) {
    MatchesSearch(c, f.query) && MatchesRegion(c, f.region) && MatchesPopulation(c, f.population)
  }

  function SearchTest(f: Filters): Country -> bool {
    c => MatchesSearch(c, f.query)
  }

  function RegionTest(f: Filters): Country -> bool {
    c => MatchesRegion(c, f.region)
  }

  function PopulationTest(f: Filters): Country -> bool {
    c => MatchesPopulation(c, f.population)
  }

  function AllTests(f: Filters): Country -> bool {
    c => Matches(c, f)
  }

  /** The search, region and population filters applied in that order. */
  function FilteredCountries(countries: seq<Country>, f: Filters): (r: seq<Country>)
    ensures |r| <= |countries|
    ensures forall c :: c in r ==> c in countries && Matches(c, f)
    ensures forall c :: c in countries && Matches(c, f) ==> c in r
  {
    Filter(PopulationTest(f), Filter(RegionTest(f), Filter(SearchTest(f), countries)))
  }

  /** The three chained filters are one filter by the conjunction of their conditions. */
  lemma PipelineIsOneFilter(countries: seq<Country>, f: Filters)
    ensures FilteredCountries(countries, f) == Filter(AllTests(f), countries)
  {
    var searchAndRegion := (c: Country) => MatchesSearch(c, f.query) && MatchesRegion(c, f.region);
    FilterThenFilter(SearchTest(f), RegionTest(f), searchAndRegion, countries);
    FilterThenFilter(searchAndRegion, PopulationTest(f), AllTests(f), countries);
  }

  /**
   The pipeline keeps the fetch order (its result is a subsequence of the input)
   and keeps each matching record exactly as often as it occurs.
   */
  lemma PipelineKeepsOrderAndCopies(countries: seq<Country>, f: Filters, c: Country)
    ensures IsSubsequence(FilteredCountries(countries, f), countries)
    ensures multiset(FilteredCountries(countries, f))[c] == if Matches(c, f) then multiset(countries)[c] else 0
  {
    PipelineIsOneFilter(countries, f);
    FilterIsSubsequence(AllTests(f), countries);
    FilterCounts(AllTests(f), countries, c);
  }

  /** The search lowers both sides and asks for an occurrence of the query in the name. */
  lemma SearchIsCaseInsensitiveSubstring(c: Country, query: string)
    ensures MatchesSearch(c, query) <==>
      c.commonName.Some? && exists i :: OccursAt(Lower(c.commonName.value), Lower(query), i)
    ensures MatchesSearch(c, query) == MatchesSearch(c, Lower(query))
  {
    if c.commonName.Some? {
      IncludesIffOccurs(Lower(c.commonName.value), Lower(query));
    }
    LowerIdempotent(query);
  }

  /** Two queries that lower to the same string select the same countries. */
  lemma QueryCaseDoesNotMatter(countries: seq<Country>, f: Filters, query: string)
    requires Lower(query) == Lower(f.query)
    ensures FilteredCountries(countries, f) == FilteredCountries(countries, f.(query := query))
  {
    var g := f.(query := query);
    FilterSamePredicate(SearchTest(f), SearchTest(g), countries);
  }

  /**
   The empty query keeps every record that has a common name (and only those),
   so with the initial filters the pipeline keeps exactly the named records.
   */
  lemma EmptyQueryKeepsNamed(countries: seq<Country>, f: Filters)
    requires f.query == ""
    ensures Filter(SearchTest(f), countries) == Filter((c: Country) => c.commonName.Some?, countries)
    ensures f == InitialFilters ==>
      FilteredCountries(countries, f) == Filter((c: Country) => c.commonName.Some?, countries)
  {
    forall c: Country | c.commonName.Some?
      ensures MatchesSearch(c, f.query)
    {
      EmptyIncludedEverywhere(Lower(c.commonName.value));
    }
    FilterSamePredicate(SearchTest(f), (c: Country) => c.commonName.Some?, countries);
    if f == InitialFilters {
      var named := Filter(SearchTest(f), countries);
      FilterKeepsAll(RegionTest(f), named);
      FilterKeepsAll(PopulationTest(f), named);
    }
  }

  /** With the initial filters and every record named, nothing is filtered out. */
  lemma InitialFiltersKeepEverything(countries: seq<Country>)
    requires forall c :: c in countries ==> c.commonName.Some?
    ensures FilteredCountries(countries, InitialFilters) == countries
  {
    EmptyQueryKeepsNamed(countries, InitialFilters);
    FilterKeepsAll((c: Country) => c.commonName.Some?, countries);
  }

  /** Region "All" keeps its whole input; any other region keeps exactly the records of that region. */
  lemma RegionFilterSelects(countries: seq<Country>, f: Filters)
    ensures f.region == "All" ==> Filter(RegionTest(f), countries) == countries
    ensures f.region != "All" ==>
      forall c :: c in Filter(RegionTest(f), countries) <==> c in countries && c.region == f.region
  {
    if f.region == "All" {
      FilterKeepsAll(RegionTest(f), countries);
    }
  }

  /**
   The three named buckets partition the populations, with 10,000,000 and
   50,000,000 both "medium"; any other bucket value keeps every population.
   */
  lemma PopulationBucketsPartition(c: Country, bucket: string)
    ensures MatchesPopulation(c, "small") <==> c.population < 10_000_000
    ensures MatchesPopulation(c, "medium") <==> 10_000_000 <= c.population <= 50_000_000
    ensures MatchesPopulation(c, "large") <==> c.population > 50_000_000
    ensures c.population == 10_000_000 || c.population == 50_000_000 ==>
      !MatchesPopulation(c, "small") && MatchesPopulation(c, "medium") && !MatchesPopulation(c, "large")
    ensures MatchesPopulation(c, "small") || MatchesPopulation(c, "medium") || MatchesPopulation(c, "large")
    ensures !(MatchesPopulation(c, "small") && MatchesPopulation(c, "medium"))
    ensures !(MatchesPopulation(c, "medium") && MatchesPopulation(c, "large"))
    ensures !(MatchesPopulation(c, "small") && MatchesPopulation(c, "large"))
    ensures bucket !in ["small", "medium", "large"] ==> MatchesPopulation(c, bucket)
  {
  }

  /**
   The filter bar offers both wildcards, and every bucket it offers other than
   "all" is one of the three named buckets.
   */
  lemma FilterBarChoices()
    ensures "All" in RegionChoices && "all" in PopulationChoices
    ensures forall b :: b in PopulationChoices && b != "all" ==> b in ["small", "medium", "large"]
  {
  }

  /** The first `displayCount` filtered countries, or all of them when there are fewer. */
  function Displayed(filtered: seq<Country>, displayCount: nat): (r: seq<Country>)
    ensures r <= filtered
    ensures |r| == if displayCount < |filtered| then displayCount else |filtered|
  {
    if displayCount < |filtered| then filtered[..displayCount] else filtered
  }

  /** Revealing more never hides a country already shown: the shorter display is a prefix of the longer. */
  lemma DisplayedGrows(filtered: seq<Country>, n: nat, m: nat)
    requires n <= m
    ensures Displayed(filtered, n) <= Displayed(filtered, m)
  {
  }

  /** What the page holds: the fetched countries, the fetch status, the filters and the reveal count. */
  datatype Page = Page(countries: seq<Country>, loading: bool, error: Option<string>,
                       filters: Filters, displayCount: nat)

  const InitialPage: Page := Page([], true, None, InitialFilters, PageSize)

  /** The things that change the page; the fetch itself is outside the model, only its outcome comes in. */
  datatype Event =
    | FetchStarted
    | FetchSucceeded(data: seq<Country>)
    | FetchFailed
    | SearchChanged(query: string)
    | RegionChanged(region: string)
    | PopulationChanged(bucket: string)
    | LoadMore

  function Step(p: Page, e: Event): (r: Page)
    ensures r.displayCount == p.displayCount + (if e.LoadMore? then PageSize else 0)
    ensures r.countries != p.countries ==> e.FetchSucceeded? && r.countries == e.data
    ensures e.FetchSucceeded? ==> r.countries == e.data
    ensures r.filters != p.filters ==> e.SearchChanged? || e.RegionChanged? || e.PopulationChanged?
    ensures e.SearchChanged? ==> r.filters == p.filters.(query := e.query)
    ensures e.RegionChanged? ==> r.filters == p.filters.(region := e.region)
    ensures e.PopulationChanged? ==> r.filters == p.filters.(population := e.bucket)
    ensures e.FetchStarted? ==> r.loading && r.error == p.error
    ensures e.FetchSucceeded? || e.FetchFailed? ==> !r.loading
    ensures !(e.FetchStarted? || e.FetchSucceeded? || e.FetchFailed?) ==> r.loading == p.loading && r.error == p.error
    ensures e.FetchFailed? ==> r.error == Some(LoadFailedMessage) && LoadFailedMessage != ""
    ensures e.FetchSucceeded? ==> r.error.None?
  {
    match e
    case FetchStarted => p.(loading := true)
    case FetchSucceeded(data) => p.(countries := data, error := None, loading := false)
    case FetchFailed => p.(error := Some(LoadFailedMessage), loading := false)
    case SearchChanged(q) => p.(filters := p.filters.(query := q))
    case RegionChanged(region) => p.(filters := p.filters.(region := region))
    case PopulationChanged(bucket) => p.(filters := p.filters.(population := bucket))
    case LoadMore => p.(displayCount := p.displayCount + PageSize)
  }

  function Run(p: Page, events: seq<Event>): Page
    decreases |events|
  {
    if events == [] then p else Run(Step(p, events[0]), events[1..])
  }

  function LoadMoreCount(events: seq<Event>): nat
  {
    if events == [] then 0
    else (if events[0].LoadMore? then 1 else 0) + LoadMoreCount(events[1..])
  }

  /** Each "Load More" adds exactly one page to the reveal count, and nothing else changes it. */
  lemma {:induction false} RunDisplayCount(p: Page, events: seq<Event>)
    ensures Run(p, events).displayCount == p.displayCount + PageSize * LoadMoreCount(events)
    decreases |events|
  {
    if events != [] {
      RunDisplayCount(Step(p, events[0]), events[1..]);
    }
  }

  /** From the initial page the reveal count is a positive multiple of the page size and never shrinks. */
  lemma ReachableDisplayCount(events: seq<Event>, more: seq<Event>)
    ensures Run(InitialPage, events).displayCount == PageSize * (1 + LoadMoreCount(events))
    ensures Run(InitialPage, events).displayCount >= PageSize
    ensures Run(Run(InitialPage, events), more).displayCount >= Run(InitialPage, events).displayCount
  {
    RunDisplayCount(InitialPage, events);
    RunDisplayCount(Run(InitialPage, events), more);
  }

  /** What the page renders. */
  datatype View =
    | Spinner
    | ErrorPanel(message: string)
    | Listing(total: nat, shown: seq<Country>, matching: nat, noResults: bool, loadMore: bool)

  function Render(p: Page): (v: View)
    ensures v.Spinner? <==> p.loading
    ensures v.ErrorPanel? <==> !p.loading && p.error.Some? && p.error.value != ""
    ensures v.ErrorPanel? ==> p.error == Some(v.message)
    ensures v.Listing? ==> v.total == |p.countries|
    ensures v.Listing? ==> v.matching == |FilteredCountries(p.countries, p.filters)|
    ensures v.Listing? ==> v.shown == Displayed(FilteredCountries(p.countries, p.filters), p.displayCount)
  {
    if p.loading then Spinner
    else if p.error.Some? && p.error.value != "" then ErrorPanel(p.error.value)
    else
      var filtered := FilteredCountries(p.countries, p.filters);
      var shown := Displayed(filtered, p.displayCount);
      Listing(|p.countries|, shown, |filtered|, |shown| == 0, |shown| < |filtered|)
  }

  /**
   On a listing, "Load More" is offered iff more countries match than the reveal
   count shows, and, the reveal count being positive, "no results" is shown iff
   no country matches at all.
   */
  lemma ListingMessages(p: Page)
    requires !p.loading && !(p.error.Some? && p.error.value != "")
    ensures Render(p).Listing?
    ensures Render(p).loadMore <==> p.displayCount < |FilteredCountries(p.countries, p.filters)|
    ensures p.displayCount > 0 ==> (Render(p).noResults <==> FilteredCountries(p.countries, p.filters) == [])
    ensures p.displayCount > 0 ==> (Render(p).noResults <==> forall c :: c in p.countries ==> !Matches(c, p.filters))
    ensures |Render(p).shown| == if Render(p).loadMore then p.displayCount else Render(p).matching
  {
    var filtered := FilteredCountries(p.countries, p.filters);
    if filtered != [] {
      assert filtered[0] in filtered;
    }
  }

  /** Whether "an" occurs in the lowered names "Aland", "Brazil" and "Canada". */
  lemma ScenarioNames()
    ensures Includes(Lower("Aland"), Lower("an"))
    ensures !Includes(Lower("Brazil"), Lower("an"))
    ensures Includes(Lower("Canada"), Lower("an"))
  {
    assert Lower("an") == "an";
    assert Lower("Aland") == "aland";
    assert Lower("Brazil") == "brazil";
    assert Lower("Canada") == "canada";
    assert Includes("aland", "an") by {
      assert "aland"[1..] == "land" && "land"[1..] == "and" && "and"[..2] == "an";
    }
    assert Includes("canada", "an") by {
      assert "canada"[1..] == "anada" && "anada"[..2] == "an";
    }
    assert !Includes("l", "an") by { assert "l"[1..] == ""; }
    assert !Includes("il", "an") by { assert "il"[1..] == "l" && "il"[..2] == "il"; }
    assert !Includes("zil", "an") by { assert "zil"[1..] == "il" && "zil"[..2] == "zi"; }
    assert !Includes("azil", "an") by { assert "azil"[1..] == "zil" && "azil"[..2] == "az"; }
    assert !Includes("razil", "an") by { assert "razil"[1..] == "azil" && "razil"[..2] == "ra"; }
    assert !Includes("brazil", "an") by { assert "brazil"[1..] == "razil" && "brazil"[..2] == "br"; }
  }

  const Aland: Country := Country("ALA", Some("Aland"), "Europe", 30_000)
  const Brazil: Country := Country("BRA", Some("Brazil"), "Americas", 215_000_000)
  const Canada: Country := Country("CAN", Some("Canada"), "Americas", 38_000_000)

  /** Example: over a catalogue of Aland, Brazil and Canada, the query "an" keeps Aland and Canada, in that order. */
  lemma ScenarioSearchAn()
    ensures FilteredCountries([Aland, Brazil, Canada], Filters("an", "All", "all")) == [Aland, Canada]
  {
    var f := Filters("an", "All", "all");
    ScenarioNames();
    assert SearchTest(f)(Aland) && !SearchTest(f)(Brazil) && SearchTest(f)(Canada);
    assert Filter(SearchTest(f), [Canada]) == [Canada] by {
      assert [Canada][1..] == [];
    }
    assert Filter(SearchTest(f), [Brazil, Canada]) == [Canada] by {
      assert [Brazil, Canada][1..] == [Canada];
    }
    assert Filter(SearchTest(f), [Aland, Brazil, Canada]) == [Aland, Canada] by {
      assert [Aland, Brazil, Canada][1..] == [Brazil, Canada];
    }
    FilterKeepsAll(RegionTest(f), [Aland, Canada]);
    FilterKeepsAll(PopulationTest(f), [Aland, Canada]);
  }
}
