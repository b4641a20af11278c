/** The saved search filters of the admin pages: one storage entry holding a dictionary from
    page type to filter text. `None` is a missing entry. */
module SearchFilterStorage {
  import opened Wrappers

  type Filters = map<string, string>

  /** `getSearchFilters`: the stored filter for `pageType`, or `""` when there is none. */
  function Lookup(blob: Option<Filters>, pageType: string): (r: string)
    ensures blob.None? ==> r == ""
    ensures blob.Some? && pageType in blob.value ==> r == blob.value[pageType]
    ensures blob.Some? && pageType !in blob.value ==> r == ""
  {
    match blob
    case None => ""
    case Some(filters) => if pageType in filters then filters[pageType] else ""
  }

  /** `setSearchFilters`: the dictionary written back, with `pageType` set to `value`; a missing
      entry starts from an empty dictionary. */
  function Put(blob: Option<Filters>, pageType: string, value: string): Filters
  {
    match blob
    case None => map[pageType := value]
    case Some(filters) => filters[pageType := value]
  }

  /** Reading back what was just stored gives it; every other type reads as before. */
  lemma PutThenLookup(blob: Option<Filters>, pageType: string, value: string, other: string)
    ensures Lookup(Some(Put(blob, pageType, value)), pageType) == value
    ensures other != pageType ==> Lookup(Some(Put(blob, pageType, value)), other) == Lookup(blob, other)
  {
  }

  /** Storing into a missing entry creates a dictionary with that one type. */
  lemma PutIntoMissing(pageType: string, value: string)
    ensures Put(None, pageType, value).Keys == {pageType}
  {
  }

  /** Storing the same value twice is storing it once. */
  lemma PutIdempotent(blob: Option<Filters>, pageType: string, value: string)
    ensures Put(Some(Put(blob, pageType, value)), pageType, value) == Put(blob, pageType, value)
  {
  }

  class FilterStore {
    /** The parsed 'searchFilters' entry. */
    var blob: Option<Filters>

    constructor(stored: Option<Filters>)
      ensures blob == stored
    {
      blob := stored;
    }

    function GetSearchFilters(pageType: string): string
      reads this
    {
      Lookup(blob, pageType)
    }

    method SetSearchFilters(pageType: string, value: string)
      modifies this
      ensures blob == Some(Put(old(blob), pageType, value))
      ensures GetSearchFilters(pageType) == value
      ensures forall t :: t != pageType ==> GetSearchFilters(t) == old(GetSearchFilters(t))
    {
      var filters := if blob.Some? then blob.value else map[];
      filters := filters[pageType := value];
      blob := Some(filters);
    }
  }
}
