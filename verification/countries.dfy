/**
 The country record shared by the list page and the favorites store, cut down
 to the fields the filter pipeline and the store read.
 */
module Countries {
  import opened Wrappers

  /**
   `cca3` is the three-letter code that keys favorites. `commonName` is
   `name.common`; it is optional because the search reads it through `name?.`,
   so a record without a `name` object is a case the code handles.
   */
  datatype Country = Country(cca3: string, commonName: Option<string>, region: string, population: nat)

  /** The region choices the filter bar offers; "All" is the wildcard. */
  const RegionChoices: seq<string> := ["All", "Africa", "Americas", "Asia", "Europe", "Oceania"]

  /** The population-bucket values the filter bar offers; "all" is the wildcard. */
  const PopulationChoices: seq<string> := ["all", "small", "medium", "large"]
}
