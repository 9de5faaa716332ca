/** The user's digest filter criteria and their storage as a nullable string. */
module UserFilters {
  import opened Wrappers

  /** The `UserFilters` object; `None` stands for a key that is absent. */
  datatype Filters = Filters(
    languages: Option<seq<string>>,
    topics: Option<seq<string>>,
    minimumStars: Option<int>,
    includeArchived: Option<bool>)

  const NoFilters := Filters(None, None, None, None)

  /** A TypeScript value of type `T | null | undefined`. */
  datatype Nullish<+T> = Undefined | Null | Defined(value: T)

  /** `Object.keys(filters).length` */
  function KeyCount(f: Filters): (n: nat)
    ensures n <= 4
    ensures n == 0 <==> f == NoFilters
  {
    (if f.languages.Some? then 1 else 0) + (if f.topics.Some? then 1 else 0)
    + (if f.minimumStars.Some? then 1 else 0) + (if f.includeArchived.Some? then 1 else 0)
  }

  /** `serializeUserFilters`, with `JSON.stringify` passed in as `stringify`. */
  function SerializeUserFilters(filters: Nullish<Filters>, stringify: Filters -> string): (r: Nullish<string>)
    ensures filters == Undefined <==> r == Undefined
    ensures filters == Null ==> r == Null
    ensures filters.Defined? && filters.value == NoFilters ==> r == Null
    ensures filters.Defined? && filters.value != NoFilters ==> r == Defined(stringify(filters.value))
  {
    match filters
    case Undefined => Undefined
    case Null => Null
    case Defined(f) => if KeyCount(f) == 0 then Null else Defined(stringify(f))
  }

  /** `deserializeUserFilters`, with `JSON.parse` passed in as `parse`; `parse`
      answers `None` where `JSON.parse` throws. */
  function DeserializeUserFilters(stored: Option<string>, parse: string -> Option<Filters>): (r: Option<Filters>)
    ensures stored == None || stored == Some("") ==> r == None
    ensures stored.Some? && stored.value != "" ==> r == parse(stored.value)
    ensures stored.Some? && stored.value != "" && parse(stored.value) == None ==> r == None
  {
    match stored
    case None => None
    case Some(s) => if s == "" then None else parse(s)
  }

  /** Storing filters and reading them back: a non-empty object comes back as
      it was, given a codec that decodes its own output; an object without
      keys is stored as null and comes back as null. */
  lemma StoredFiltersRoundTrip(f: Filters, stringify: Filters -> string, parse: string -> Option<Filters>)
    requires stringify(f) != ""
    requires parse(stringify(f)) == Some(f)
    ensures f != NoFilters ==>
      SerializeUserFilters(Defined(f), stringify) == Defined(stringify(f)) &&
      DeserializeUserFilters(Some(stringify(f)), parse) == Some(f)
    ensures f == NoFilters ==>
      SerializeUserFilters(Defined(f), stringify) == Null &&
      DeserializeUserFilters(None, parse) == None
  {
  }
}
