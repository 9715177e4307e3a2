# Country explorer: filter pipeline and favorites store

This project models the two pieces of pure logic in a browser app that browses a
catalogue of countries:

- **The country list page** (`src/pages/CountryList.tsx`). The fetched countries
  pass through three filters in turn. The first is a case-insensitive substring
  search on the common name. The second is a region filter where `"All"` is a
  wildcard. The third is a population-bucket filter with thresholds of
  10,000,000 and 50,000,000. The page then shows the first `displayCount`
  matches. `displayCount` starts at 10 and each "Load More" adds 10. The model
  also covers the fetch life cycle (loading, failure, retry, success) and what
  the page renders in each state. That includes when "no results" and the
  "Load More" button appear.
- **The favorites store** (`src/context/FavoritesContext.tsx`). It is an ordered
  list of country snapshots keyed by the three-letter code `cca3`. It offers
  `addFavorite`, `removeFavorite`, `isFavorite` and `toggleFavorite`. It starts
  from the list in the storage slot, or from the empty list when the slot is
  empty. After every change it writes the whole list back to the slot.

Files (one module each):

- `wrappers.dfy`: `Option`, for `undefined` / `null` / an absent storage key.
- `sequences.dfy`: the `Array.prototype.filter` model (`Filter`), the subsequence
  relation, and filter lemmas about order, multiplicity, concatenation,
  composition and extensionality.
- `text.dfy`: ASCII `toLowerCase` (`Lower`) and `includes` (`Includes`), with
  `Includes` proved equal to "occurs at some position".
- `countries.dfy`: the `Country` record with the fields the logic reads, and the
  region and population vocabularies of the filter bar (`src/components/Filters.tsx`).
- `country_list.dfy`: the pipeline, the displayed prefix, the page events and the
  rendering.
- `favorites.dfy`: the store, its operations, and an independent code-set model
  that any sequence of operations is proved to follow.

Behaviour worth knowing:

- The search reads `name?.common`. A record without a `name` object therefore never
  passes the search, not even with the empty query. So "the empty query keeps
  every country" holds for every record that has a name (`EmptyQueryKeepsNamed`,
  `InitialFiltersKeepEverything`).
- `addFavorite` appends without checking for duplicates. The model keeps that
  behaviour: toggling keeps codes unique, and a direct add of a code that is
  already present creates a duplicate (`ToggleKeepsUniqueCodes`).
- Start-up does not catch a `JSON.parse` failure. The model does not claim that
  malformed stored content yields the empty list (see "Left out").
- The three named population buckets do not overlap. Exactly 10,000,000 and
  exactly 50,000,000 are "medium" only (`PopulationBucketsPartition`).

## Model

| member | source | states |
|---|---|---|
| `Sequences.Filter` | src/pages/CountryList.tsx:35-54 | `Array.prototype.filter`: the result is no longer than the input, every element of the result is an input element satisfying the predicate, and every input element satisfying it is in the result |
| `Sequences.FilterIsSubsequence` | src/pages/CountryList.tsx:35-54 | filtering never reorders: the result is a subsequence of the input |
| `Sequences.FilterThenFilter` | src/pages/CountryList.tsx:35-54 | chained `.filter` calls equal one filter by the conjunction of their predicates |
| `Text.LowerChar` | src/pages/CountryList.tsx:37 | ASCII lowering of one character: a capital letter moves to its lower-case letter, anything else is unchanged |
| `Text.Lower` | src/pages/CountryList.tsx:37 | `toLowerCase` (ASCII only): same length, each capital becomes its own lower-case letter, no capital letter left, non-capital characters unchanged |
| `Text.IncludesIffOccurs` | src/pages/CountryList.tsx:37 | `includes` holds iff the needle occurs at some position of the haystack |
| `Text.EmptyIncludedEverywhere` | src/pages/CountryList.tsx:37 | `includes("")` holds for every string |
| `CountryList.FilteredCountries` | src/pages/CountryList.tsx:34-55 | the pipeline is sound (every kept country passes all three filters) and complete (every input country passing all three is kept) |
| `CountryList.PipelineIsOneFilter` | src/pages/CountryList.tsx:34-55 | the three chained filters equal one filter by the conjunction of search, region and population |
| `CountryList.PipelineKeepsOrderAndCopies` | src/pages/CountryList.tsx:34-55 | the filtered list keeps the fetch order and keeps each matching record as often as it occurs (none of the others) |
| `CountryList.SearchIsCaseInsensitiveSubstring` | src/pages/CountryList.tsx:36-38 | a country passes the search iff it has a name and the lowered query occurs in the lowered name; lowering the query first changes nothing |
| `CountryList.QueryCaseDoesNotMatter` | src/pages/CountryList.tsx:36-38 | two queries with the same lower-case form select the same countries |
| `CountryList.EmptyQueryKeepsNamed` | src/pages/CountryList.tsx:36-38 | the empty query keeps exactly the records that have a name; with the initial filters the whole pipeline keeps exactly those |
| `CountryList.InitialFiltersKeepEverything` | src/pages/CountryList.tsx:12-55 | with the initial query `""`, region `"All"` and bucket `"all"`, a list of named records comes out unchanged |
| `CountryList.RegionFilterSelects` | src/pages/CountryList.tsx:39-41 | region `"All"` keeps its whole input; any other region keeps exactly the records whose region equals it |
| `CountryList.PopulationBucketsPartition` | src/pages/CountryList.tsx:42-54 | small is below 10,000,000; medium is 10,000,000 to 50,000,000 inclusive; large is above 50,000,000. The three partition the populations, both thresholds are medium only, and any other bucket keeps everything |
| `CountryList.FilterBarChoices` | src/components/Filters.tsx:16-22 | the filter bar offers both wildcards ("All", "all"), and every population choice other than "all" is one of the three named buckets |
| `CountryList.Displayed` | src/pages/CountryList.tsx:57 | the displayed list is a prefix of the filtered list with length min(displayCount, number filtered) |
| `CountryList.DisplayedGrows` | src/pages/CountryList.tsx:57-61 | a larger reveal count shows a list that extends the smaller one's |
| `CountryList.Step` | src/pages/CountryList.tsx:21-61 | page events: only "Load More" changes the reveal count, by exactly 10; only a successful fetch replaces the countries; each filter input stores its value in its own field and nothing else changes the filters; starting a fetch sets loading, a finished fetch clears it; a successful fetch stores the fetched list and clears the error; a failed fetch stores the fixed non-empty failure message and keeps the old list; starting a fetch keeps the error; non-fetch events leave loading and error alone |
| `CountryList.RunDisplayCount` | src/pages/CountryList.tsx:59-61 | over any run of events the reveal count grows by 10 per "Load More" and by nothing else |
| `CountryList.ReachableDisplayCount` | src/pages/CountryList.tsx:15-61 | from the initial page the reveal count is 10 × (1 + number of "Load More"s): at least 10, and it never decreases |
| `CountryList.Render` | src/pages/CountryList.tsx:63-131 | the spinner shows iff loading; the error panel shows iff not loading and the error is a non-empty message, and it shows that message; a listing reports the total count and the number of matches, and shows the first `displayCount` matches |
| `CountryList.ListingMessages` | src/pages/CountryList.tsx:106-131 | when neither the spinner nor the error panel shows (error absent or empty), "Load More" is offered iff more countries match than the reveal count, and with a positive reveal count "no results" shows iff nothing matches |
| `CountryList.ScenarioSearchAn` | src/pages/CountryList.tsx:34-55 | example: over a catalogue of Aland, Brazil and Canada, the query "an" keeps Aland and Canada, in that order |
| `Favorites.Commit` | src/context/FavoritesContext.tsx:68-70 | after a change the slot holds exactly the new list |
| `Favorites.Init` | src/context/FavoritesContext.tsx:63-70 | start-up takes the stored list, or the empty list when the slot is empty, and the slot then holds that list |
| `Favorites.HasCode` | src/context/FavoritesContext.tsx:80-82 | `some` over the list: true iff some position carries the code |
| `Favorites.IsFavorite` | src/context/FavoritesContext.tsx:80-82 | `isFavorite(code)` holds iff some entry has `cca3 == code` |
| `Favorites.AddFavorite` | src/context/FavoritesContext.tsx:72-74 | appends at the end: length grows by one, earlier entries are unchanged and in order, the code becomes a favorite, other codes' membership is unchanged, the slot is written |
| `Favorites.RemoveFavorite` | src/context/FavoritesContext.tsx:76-78 | the code is no longer a favorite; the entries kept are exactly those with another code; other codes' membership is unchanged; the slot is written |
| `Favorites.RemoveKeepsOrder` | src/context/FavoritesContext.tsx:76-78 | the surviving entries keep their relative order and their multiplicities |
| `Favorites.RemoveAbsentIsNoOp` | src/context/FavoritesContext.tsx:76-78 | removing a code that no entry carries leaves the list unchanged |
| `Favorites.ToggleFavorite` | src/context/FavoritesContext.tsx:84-90 | toggling negates the country's membership and leaves every other code's membership unchanged; the slot is written |
| `Favorites.ToggleTwiceRestores` | src/context/FavoritesContext.tsx:72-90 | toggling an absent country twice restores exactly the original list |
| `Favorites.ToggleTwiceOnFavorite` | src/context/FavoritesContext.tsx:72-90 | toggling a favorite twice leaves the list without its code, followed by the country once at the end |
| `Favorites.FilterKeepsUniqueCodes` | src/context/FavoritesContext.tsx:76-78 | filtering a list with unique codes leaves unique codes |
| `Favorites.ToggleKeepsUniqueCodes` | src/context/FavoritesContext.tsx:72-90 | toggling keeps codes unique; a direct add of a code already present creates a duplicate |
| `Favorites.Codes` | src/context/FavoritesContext.tsx:80-82 | abstraction to the code-set model: a code is in the set iff the `some` scan of the list (`HasCode`) finds it |
| `Favorites.ApplyTracksCodes` | src/context/FavoritesContext.tsx:72-90 | each operation changes the set of favorite codes as a code-set model does: add inserts, remove deletes, toggle flips |
| `Favorites.RunTracksCodes` | src/context/FavoritesContext.tsx:68-90 | after any sequence of add/remove/toggle, `isFavorite(code)` holds iff the code-set model ends with the code; the slot holds the final list after any non-empty sequence |
| `Favorites.TogglesKeepUniqueCodes` | src/context/FavoritesContext.tsx:84-90 | any toggle-only sequence keeps codes unique |
| `Favorites.FreshStoreTogglesKeepUniqueCodes` | src/context/FavoritesContext.tsx:63-90 | from an empty slot, toggling alone gives unique codes, and the slot holds the list |

## Left out

- Network access (`src/services/api.ts`): `getAllCountries` and the other fetches are not modelled. Their outcome enters the page model as the `FetchSucceeded(data)` / `FetchFailed` events. The unused hard-coded debug weather request is not modelled either.
- `src/pages/CountryDetails.tsx`: asynchronous fetch orchestration and markup. Its temperature rounding and `toLocaleString` are floating-point and locale work.
- `formatPopulation` in `src/components/CountryCard.tsx`: floating-point division and `toFixed`.
- `src/components/SearchBar.tsx`: the timer-based debounce. The model sees only the query that reaches `setSearchQuery`, as a `SearchChanged` event.
- `src/App.tsx`, `src/pages/Favorites.tsx` and the markup of `src/components/Filters.tsx`: routing and rendering. Only the two filter vocabularies are kept, as constants.
- JSON (de)serialisation and the browser's storage: the slot is an abstract `Option<seq<Country>>`. A stored empty string, which the code reads as "nothing stored", cannot be expressed. Malformed stored content makes `JSON.parse` throw, which the code does not catch. The model claims nothing for that case.
- React specifics: batched state updates, the `isFavorite` closure over the current render inside `toggleFavorite`, and the provider-missing error of `useFavorites`. The operations are modelled as sequential updates of one store.
- Text.Lower: lowers ASCII letters only, because JavaScript's full Unicode `toLowerCase` tables are not modelled.
- A record whose `name` object lacks `common` makes the search throw. The model has no such record: the name is either absent or present with its common name.
- `Country.population` and `displayCount` are natural numbers. Fractional, negative or `NaN` JavaScript numbers are not modelled.
